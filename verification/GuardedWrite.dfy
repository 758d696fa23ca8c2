/**
 * The whole path of one write token: confirm, claim, execute, reset
 * (src/brain/confirmation.service.ts, src/tools/tool-executor.ts).
 *
 * All executions of a token carry the tool call id `confirm-<token>`, so they
 * meet on one idempotency row.  A system is the token's guard beside that
 * row's gate.  A go-ahead lets a caller enter the gate once; a caller whose
 * execution was refused or failed sends the reset.  `Failover` drops the lock
 * and puts any record whatever in place of the token, which covers a guard
 * that falls back to its in-memory store, or returns from it.
 */
module GuardedWrite {
  import opened Common
  import opened WriteGuard
  import P = WriteGuardProtocol
  import K = GateProtocol
  import I = IdempotencyGate

  type CallerId = nat

  datatype Event =
    | OnGuard(guardEvent: P.Event)
    | Enter(c: CallerId)
    | OnGate(gateEvent: K.Event)
    | Failover(token: Option<PendingWrite>)
    | Tick(now: int)

  datatype System = System(guard: P.Guard, gate: K.Sys)

  function Start(now: int, w: PendingWrite): System {
    System(P.Suspended(now, w), K.Init(now))
  }

  /** The caller's `executeToolCall` ended without success, possibly before reaching the gate. */
  predicate EndedBadly(gate: K.Sys, c: CallerId) {
    c in gate.callers ==>
      match gate.callers[c]
      case Done(InProgressAnswer) => true
      case Done(Ran(result)) => !result.success
      case _ => false
  }

  predicate MayEnter(s: System, c: CallerId) {
    c in s.guard.callers && s.guard.callers[c] == P.Answered(P.Go)
  }

  function Step(s: System, e: Event): System {
    match e
    case OnGuard(g) =>
      if g.Tick? || (g.ResetLoad? && !EndedBadly(s.gate, g.c)) then s
      else s.(guard := P.Step(s.guard, g))
    case Enter(c) => if MayEnter(s, c) then s.(gate := K.Step(s.gate, K.Arrive(c))) else s
    case OnGate(k) => if k.Tick? || k.Arrive? then s else s.(gate := K.Step(s.gate, k))
    case Failover(token) => s.(guard := s.guard.(token := token, lock := None))
    case Tick(now) => System(P.Step(s.guard, P.Tick(now)), K.Step(s.gate, K.Tick(now)))
  }

  function Run(s: System, events: seq<Event>): System
    decreases |events|
  {
    if events == [] then s else Run(Step(s, events[0]), events[1..])
  }

  lemma {:induction false} RunSplit(s: System, a: seq<Event>, b: seq<Event>)
    ensures Run(s, a + b) == Run(Run(s, a), b)
    decreases |a|
  {
    if a == [] {
      assert a + b == b;
    } else {
      assert (a + b)[1..] == a[1..] + b;
      RunSplit(Step(s, a[0]), a[1..], b);
    }
  }

  // ---- what the gate sees --------------------------------------------------

  /** The gate events a system event amounts to. */
  function Seen(s: System, e: Event): seq<K.Event> {
    match e
    case Enter(c) => if MayEnter(s, c) then [K.Arrive(c)] else []
    case OnGate(k) => if k.Tick? || k.Arrive? then [] else [k]
    case Tick(now) => [K.Tick(now)]
    case _ => []
  }

  function GateView(s: System, events: seq<Event>): seq<K.Event>
    decreases |events|
  {
    if events == [] then [] else Seen(s, events[0]) + GateView(Step(s, events[0]), events[1..])
  }

  lemma {:induction false} GateRunsItsView(s: System, events: seq<Event>)
    ensures Run(s, events).gate == K.Run(s.gate, GateView(s, events))
    decreases |events|
  {
    if events != [] {
      var e := events[0];
      K.RunSplit(s.gate, Seen(s, e), GateView(Step(s, e), events[1..]));
      assert K.Run(s.gate, Seen(s, e)) == Step(s, e).gate by {
        if Seen(s, e) != [] {
          assert Seen(s, e)[1..] == [];
        }
      }
      GateRunsItsView(Step(s, e), events[1..]);
    }
  }

  /**
   * End to end, in every interleaving, with lapsed locks and store failovers:
   * successful executions of one token never exceed one plus the gate's hazards,
   * and under the gate's operating assumptions there is at most one.
   */
  lemma OneSuccessPerToken(now: int, w: PendingWrite, events: seq<Event>)
    ensures var gate := Run(Start(now, w), events).gate; gate.successes <= 1 + gate.hazards
    ensures K.AllowedRun(K.Init(now), GateView(Start(now, w), events)) ==>
              Run(Start(now, w), events).gate.successes <= 1
  {
    var view := GateView(Start(now, w), events);
    GateRunsItsView(Start(now, w), events);
    K.SuccessesWithinHazards(now, view);
    if K.AllowedRun(K.Init(now), view) {
      K.OneSuccessUnderAssumptions(now, view);
    }
  }

  // ---- nobody executes unconfirmed -----------------------------------------

  /** Whoever is past the confirm went ahead, whoever is in the gate is past the confirm. */
  predicate OnlyConfirmed(s: System) {
    && (forall c | c in s.guard.callers && P.Spender(s.guard.callers[c]) :: c in s.guard.followed)
    && (forall c | c in s.gate.callers :: c in s.guard.followed)
  }

  lemma GuardStepKeepsRecord(g: P.Guard, e: P.Event)
    requires forall c | c in g.callers && P.Spender(g.callers[c]) :: c in g.followed
    ensures forall c | c in P.Step(g, e).callers && P.Spender(P.Step(g, e).callers[c]) :: c in P.Step(g, e).followed
    ensures g.followed.Keys <= P.Step(g, e).followed.Keys
  {
  }

  lemma GateStepAdmitsNobody(k: K.Sys, e: K.Event)
    ensures K.Step(k, e).callers.Keys <= k.callers.Keys + if e.Arrive? then {e.c} else {}
  {
  }

  lemma StepKeepsOnlyConfirmed(s: System, e: Event)
    requires OnlyConfirmed(s)
    ensures OnlyConfirmed(Step(s, e))
  {
    match e
    case OnGuard(g) => GuardStepKeepsRecord(s.guard, g);
    case OnGate(k) => GateStepAdmitsNobody(s.gate, k);
    case Enter(c) => GateStepAdmitsNobody(s.gate, K.Arrive(c));
    case Tick(now) =>
      GuardStepKeepsRecord(s.guard, P.Tick(now));
      GateStepAdmitsNobody(s.gate, K.Tick(now));
    case Failover(_) =>
  }

  lemma {:induction false} ExecutionNeedsGoAhead(s: System, events: seq<Event>)
    requires OnlyConfirmed(s)
    ensures OnlyConfirmed(Run(s, events))
    decreases |events|
  {
    if events != [] {
      StepKeepsOnlyConfirmed(s, events[0]);
      ExecutionNeedsGoAhead(Step(s, events[0]), events[1..]);
    }
  }

  // ---- with the guard's own assumptions --------------------------------------

  /** No failover, and bodies inside their leases. */
  predicate GuardKept(s: System, e: Event) {
    !e.Failover? && (e.Tick? ==> P.LeaseKept(s.guard, P.Tick(e.now)))
  }

  predicate GuardKeptRun(s: System, events: seq<Event>)
    decreases |events|
  {
    events == [] || (GuardKept(s, events[0]) && GuardKeptRun(Step(s, events[0]), events[1..]))
  }

  lemma {:induction false} RunKeepsGuardInv(s: System, events: seq<Event>)
    requires P.Inv(s.guard) && GuardKeptRun(s, events)
    ensures P.Inv(Run(s, events).guard) && Run(s, events).guard.origin == s.guard.origin
    decreases |events|
  {
    hide P.Inv, P.LeaseKept;
    if events != [] {
      var e := events[0];
      match e {
        case OnGuard(g) =>
          assert P.LeaseKept(s.guard, g) || g.Tick? by { LeaseOnlyLimitsTime(s.guard, g); }
          if !g.Tick? { P.StepKeepsInv(s.guard, g); }
        case Tick(now) => P.StepKeepsInv(s.guard, P.Tick(now));
        case _ =>
      }
      RunKeepsGuardInv(Step(s, e), events[1..]);
    }
  }

  lemma LeaseOnlyLimitsTime(s: P.Guard, g: P.Event)
    ensures g.Tick? || P.LeaseKept(s, g)
  {
  }

  /** Every execution of a high-risk token follows a go-ahead that followed another caller's first confirm. */
  lemma HighRiskExecutionIsSeconded(now: int, w: PendingWrite, events: seq<Event>, c: CallerId)
    requires w.status == Pending && (w.risk == High || w.needsReview)
    requires GuardKeptRun(Start(now, w), events)
    requires c in Run(Start(now, w), events).gate.callers
    ensures var guard := Run(Start(now, w), events).guard;
            c in guard.followed && P.Followed(guard, c) && guard.goAheads <= 1
  {
    RunKeepsGuardInv(Start(now, w), events);
    ExecutionNeedsGoAhead(Start(now, w), events);
  }

  // ---- a successful execution settles the token --------------------------------------

  /** The caller was told of a success, its own or a replayed one. */
  predicate ToldSuccess(gate: K.Sys, c: CallerId) {
    c in gate.callers
    && (gate.callers[c].Done?
        && (gate.callers[c].answer.ReplayedFirst?
            || (gate.callers[c].answer.Ran? && gate.callers[c].answer.result.success)))
  }

  /** It still holds its go-ahead and has nothing to reset. */
  predicate Settled(s: System, c: CallerId) {
    P.Inv(s.guard) && MayEnter(s, c) && ToldSuccess(s.gate, c)
  }

  lemma GuardStepWhileSettled(g: P.Guard, e: P.Event, c: CallerId)
    requires P.Inv(g) && c in g.callers && g.callers[c] == P.Answered(P.Go) && e != P.ResetLoad(c)
    ensures var t := P.Step(g, e);
            c in t.callers && t.callers[c] == P.Answered(P.Go) && t.followed == g.followed
  {
    P.OneSpender(g, c);
    hide P.Inv, P.LiveToken, P.Held;
  }

  lemma GateStepKeepsTold(k: K.Sys, e: K.Event, c: CallerId)
    requires ToldSuccess(k, c)
    ensures ToldSuccess(K.Step(k, e), c)
  {
    K.DoneStaysOneStep(k, e, c);
    hide K.Step;
  }

  lemma StepKeepsSettled(s: System, e: Event, c: CallerId)
    requires Settled(s, c) && GuardKept(s, e)
    ensures Settled(Step(s, e), c) && Step(s, e).guard.followed == s.guard.followed
  {
    hide P.Inv, P.Step, K.Step, ToldSuccess, P.LeaseKept;
    match e
    case OnGuard(g) =>
      if g == P.ResetLoad(c) {
        SuccessIsNotReset(s, c);
      } else if !g.Tick? && !(g.ResetLoad? && !EndedBadly(s.gate, g.c)) {
        LeaseOnlyLimitsTime(s.guard, g);
        P.StepKeepsInv(s.guard, g);
        GuardStepWhileSettled(s.guard, g, c);
      }
    case Tick(now) =>
      P.StepKeepsInv(s.guard, P.Tick(now));
      GuardStepWhileSettled(s.guard, P.Tick(now), c);
      GateStepKeepsTold(s.gate, K.Tick(now), c);
    case Enter(d) => GateStepKeepsTold(s.gate, K.Arrive(d), c);
    case OnGate(k) => GateStepKeepsTold(s.gate, k, c);
    case Failover(_) =>
  }

  /** A caller that was told of a success does not reset the token. */
  lemma SuccessIsNotReset(s: System, c: CallerId)
    requires ToldSuccess(s.gate, c)
    ensures Step(s, OnGuard(P.ResetLoad(c))) == s
  {
  }

  /**
   * Once a caller with a go-ahead was told of a success, nobody else is ever
   * given one, as long as leases are kept and the store does not fail over.
   */
  lemma {:induction false} SuccessSettlesTheToken(s: System, events: seq<Event>, c: CallerId)
    requires P.Inv(s.guard) && MayEnter(s, c) && ToldSuccess(s.gate, c) && GuardKeptRun(s, events)
    ensures var t := Run(s, events);
            t.guard.followed == s.guard.followed && MayEnter(t, c) && ToldSuccess(t.gate, c)
    decreases |events|
  {
    if events != [] {
      StepKeepsSettled(s, events[0], c);
      hide Step, P.Inv, MayEnter, ToldSuccess, GuardKept;
      assert Settled(Step(s, events[0]), c);
      SuccessSettlesTheToken(Step(s, events[0]), events[1..], c);
    }
  }

  // ---- a failed execution can be retried ----------------------------------------

  function Lift(events: seq<P.Event>): seq<Event> {
    seq(|events|, i requires 0 <= i < |events| => OnGuard(events[i]))
  }

  function LiftGate(events: seq<K.Event>): seq<Event> {
    seq(|events|, i requires 0 <= i < |events| => OnGate(events[i]))
  }

  lemma {:induction false} GuardOnly(s: System, events: seq<P.Event>)
    requires forall e | e in events :: !e.Tick? && !e.ResetLoad?
    ensures Run(s, Lift(events)) == s.(guard := P.Run(s.guard, events))
    decreases |events|
  {
    if events != [] {
      assert Lift(events)[1..] == Lift(events[1..]);
      GuardOnly(Step(s, OnGuard(events[0])), events[1..]);
    }
  }

  lemma {:induction false} GateOnly(s: System, events: seq<K.Event>)
    requires forall e | e in events :: !e.Tick? && !e.Arrive?
    ensures Run(s, LiftGate(events)) == s.(gate := K.Run(s.gate, events))
    decreases |events|
  {
    if events != [] {
      assert LiftGate(events)[1..] == LiftGate(events[1..]);
      GateOnly(Step(s, OnGate(events[0])), events[1..]);
    }
  }

  lemma ConfirmEvents(highRisk: bool, d: CallerId, e: CallerId, customer: string)
    ensures forall x | x in P.Confirms(highRisk, d, e, customer) :: !x.Tick? && !x.ResetLoad?
  {
  }

  /** What it takes to claim, once in the gate, whatever the fast path answers. */
  function Claim(c: CallerId, answer: I.RedisAnswer): seq<K.Event> {
    [K.Redis(c, answer), K.Find(c, true), K.Insert(c, true), K.Reread(c, true), K.Reclaim(c, true)]
  }

  /** From a state in which a caller's go-ahead was spent in vain: reset, confirms, claim. */
  lemma RetriedFrom(s: System, c: CallerId, d: CallerId, e: CallerId, customer: string, answer: I.RedisAnswer, key: I.Key)
    requires MayEnter(s, c) && EndedBadly(s.gate, c)
    requires P.LiveToken(s.guard).Some? && P.LiveToken(s.guard).value.status == Confirmed
    requires P.LiveToken(s.guard).value.customer == "" || P.LiveToken(s.guard).value.customer == customer
    requires d !in s.guard.callers && e !in s.guard.callers && d != e && e !in s.gate.callers && !P.Held(s.guard)
    ensures var s' := Run(s, Retry(c, d, e, HighRisk(P.LiveToken(s.guard).value), customer, answer));
            e in s'.gate.callers
            && s'.gate.callers[e] == K.Counter(I.MySqlOnly(s.gate.row, key, s.gate.nextId, s.gate.now).0, s.gate.now)
  {
    var reset := [OnGuard(P.ResetLoad(c)), OnGuard(P.ResetWrite(c))];
    var highRisk := HighRisk(P.LiveToken(s.guard).value);
    var confirms := P.Confirms(highRisk, d, e, customer);
    var s2 := ResetLands(s, c);
    var s3 := s2.(guard := P.Run(s2.guard, confirms));
    assert !P.Held(s2.guard) && P.LiveToken(s2.guard) == s2.guard.token;
    assert d !in s2.guard.callers.Keys && e !in s2.guard.callers.Keys;
    hide P.Run, P.LiveToken, P.Held, HighRisk, P.Confirms;
    HighRiskIgnoresStatus(P.LiveToken(s.guard).value);
    P.PendingIsConfirmable(s2.guard, d, e, customer);
    ConfirmEvents(highRisk, d, e, customer);
    GuardOnly(s2, confirms);
    var s4 := Step(s3, Enter(e));
    assert s4.gate == K.Step(s.gate, K.Arrive(e));
    GateOnly(s4, Claim(e, answer));
    ClaimsAlone(s.gate, e, answer, key);
    assert Retry(c, d, e, highRisk, customer, answer) == reset + Lift(confirms) + [Enter(e)] + LiftGate(Claim(e, answer));
    hide *;
    RunOfFour(s, reset, Lift(confirms), Enter(e), LiftGate(Claim(e, answer)));
  }

  /** The reset of caller c, the usual confirms ending in e's, and e's way to the row. */
  function Retry(c: CallerId, d: CallerId, e: CallerId, highRisk: bool, customer: string, answer: I.RedisAnswer): seq<Event> {
    [OnGuard(P.ResetLoad(c)), OnGuard(P.ResetWrite(c))]
    + Lift(P.Confirms(highRisk, d, e, customer)) + [Enter(e)] + LiftGate(Claim(e, answer))
  }

  /** All that is known of a guard without failover and with bodies inside their leases. */
  ghost predicate GuardFacts(g: P.Guard) {
    P.Inv(g) && P.OneExpiry(g) && P.RecordedHaveWritten(g) && P.TokenKept(g)
  }

  lemma GuardStepKeepsFacts(g: P.Guard, e: P.Event)
    requires GuardFacts(g) && P.LeaseKept(g, e)
    ensures GuardFacts(P.Step(g, e)) && P.Step(g, e).origin == g.origin
  {
    hide P.Inv, P.OneExpiry, P.RecordedHaveWritten, P.TokenKept, P.Step;
    P.StepKeepsInv(g, e);
    P.StepKeepsOneExpiry(g, e);
    P.StepKeepsRecordedHaveWritten(g, e);
    P.StepKeepsToken(g, e);
  }

  lemma {:induction false} RunKeepsFacts(s: System, events: seq<Event>)
    requires GuardFacts(s.guard) && OnlyConfirmed(s) && GuardKeptRun(s, events)
    ensures GuardFacts(Run(s, events).guard) && OnlyConfirmed(Run(s, events))
    ensures Run(s, events).guard.origin == s.guard.origin
    decreases |events|
  {
    hide GuardFacts, OnlyConfirmed, P.LeaseKept;
    if events != [] {
      var e := events[0];
      StepKeepsOnlyConfirmed(s, e);
      match e {
        case OnGuard(g) =>
          if !g.Tick? {
            LeaseOnlyLimitsTime(s.guard, g);
            GuardStepKeepsFacts(s.guard, g);
          }
        case Tick(now) => GuardStepKeepsFacts(s.guard, P.Tick(now));
        case _ =>
      }
      RunKeepsFacts(Step(s, e), events[1..]);
    }
  }

  /**
   * After any run without failover and inside the leases, a caller whose
   * go-ahead ended badly - in a failed execution, a refusal by the gate or
   * before ever reaching it - can reset the token before it expires, and the
   * usual confirms (two for a high-risk token, one for any other) bring the
   * last confirmer to the row. It claims it if the row is failed or was never
   * made; otherwise it gets the answer the row holds.
   */
  lemma FailedExecutionCanBeRetried(
      now: int, w: PendingWrite, past: seq<Event>,
      c: CallerId, d: CallerId, e: CallerId, customer: string, answer: I.RedisAnswer, key: I.Key)
    requires w.status == Pending && (w.customer == "" || w.customer == customer)
    requires GuardKeptRun(Start(now, w), past)
    requires var s := Run(Start(now, w), past);
             && MayEnter(s, c) && s.guard.now <= w.expiresAt
             && (c !in s.gate.callers || s.gate.callers[c] == K.Done(K.InProgressAnswer)
                 || exists r :: s.gate.callers[c] == K.Done(K.Ran(r)) && !r.success)
             && d !in s.guard.callers && e !in s.guard.callers && d != e && !P.Held(s.guard)
    ensures var s := Run(Start(now, w), past);
            var s' := Run(s, Retry(c, d, e, w.risk == High || w.needsReview, customer, answer));
            && e in s'.gate.callers
            && s'.gate.callers[e] == K.Counter(I.MySqlOnly(s.gate.row, key, s.gate.nextId, s.gate.now).0, s.gate.now)
            && (s.gate.row.None? ==> s'.gate.callers[e] == K.Claimed(Some(s.gate.nextId), s.gate.now))
            && (s.gate.row.Some? && s.gate.row.value.status == I.Failed ==>
                  s'.gate.callers[e] == K.Claimed(Some(s.gate.row.value.id), s.gate.now))
  {
    var s := Run(Start(now, w), past);
    RunKeepsFacts(Start(now, w), past);
    hide Run, GuardKeptRun;
    P.SpenderHasConfirmedToken(s.guard, c);
    assert e !in s.gate.callers by {
      assert e in s.gate.callers ==> e in s.guard.followed;
    }
    RiskOfToken(P.LiveToken(s.guard).value, w);
    hide GuardFacts, OnlyConfirmed;
    RetriedFrom(s, c, d, e, customer, answer, key);
  }

  lemma RiskOfToken(live: PendingWrite, w: PendingWrite)
    requires P.SameToken(live, w)
    ensures HighRisk(live) == HighRisk(w) && live.customer == w.customer
  {
  }

  lemma HighRiskIgnoresStatus(w: PendingWrite)
    ensures HighRisk(w.(status := Pending)) == HighRisk(w)
  {
  }

  lemma ClaimsAlone(gate: K.Sys, c: CallerId, answer: I.RedisAnswer, key: I.Key)
    requires c !in gate.callers
    ensures var gate' := K.Run(K.Step(gate, K.Arrive(c)), Claim(c, answer));
            c in gate'.callers
            && gate'.callers[c] == K.Counter(I.MySqlOnly(gate.row, key, gate.nextId, gate.now).0, gate.now)
  {
    hide K.Step, K.Run, I.MySqlOnly, K.Counter;
    K.FastPathInvisible(gate, c, key, answer);
    K.RunCons(gate, K.Arrive(c), Claim(c, answer));
    assert [K.Arrive(c)] + Claim(c, answer)
        == [K.Arrive(c), K.Redis(c, answer), K.Find(c, true), K.Insert(c, true), K.Reread(c, true), K.Reclaim(c, true)];
  }

  lemma RunOfFour(s: System, a: seq<Event>, b: seq<Event>, e: Event, c: seq<Event>)
    ensures Run(s, a + b + [e] + c) == Run(Step(Run(Run(s, a), b), e), c)
  {
    RunSplit(s, a, b);
    RunSplit(s, a + b, [e]);
    RunSplit(s, a + b + [e], c);
    var t := Run(s, a + b);
    assert Run(t, [e]) == Step(t, e) by {
      assert [e][1..] == [];
    }
  }

  lemma ResetLands(s: System, c: CallerId) returns (s2: System)
    requires MayEnter(s, c) && EndedBadly(s.gate, c)
    requires P.LiveToken(s.guard).Some? && P.LiveToken(s.guard).value.status == Confirmed
    ensures s2 == Run(s, [OnGuard(P.ResetLoad(c)), OnGuard(P.ResetWrite(c))])
    ensures s2.gate == s.gate && s2.guard.lock == s.guard.lock && s2.guard.now == s.guard.now
    ensures s2.guard.callers.Keys == s.guard.callers.Keys
    ensures s2.guard.token == Some(P.LiveToken(s.guard).value.(status := Pending))
  {
    var w := P.LiveToken(s.guard).value;
    var s1 := s.(guard := P.At(s.guard, c, P.Resetting(w)));
    s2 := s.(guard := P.StepResetWrite(s1.guard, c, w));
    var events := [OnGuard(P.ResetLoad(c)), OnGuard(P.ResetWrite(c))];
    assert Step(s, events[0]) == s1 && Step(s1, events[1]) == s2;
    assert Run(s1, events[1..]) == s2;
  }
}
