/**
 * The per-tool circuit breaker (src/tools/circuit-breaker.service.ts) and how
 * many failing executions it lets through in any window.
 */
module CircuitBreaker {
  import opened Common

  datatype BreakerState = BreakerState(
    failureTimestamps: seq<int>,
    calls: nat,
    openedAt: Option<int>,
    halfOpen: bool)

  datatype Config = Config(failureThreshold: int, windowMs: int, cooldownMs: int)

  /** The failures that are younger than the window at `now`, in order. */
  function Recent(times: seq<int>, now: int, windowMs: int): (r: seq<int>)
    ensures |r| <= |times|
  {
    if times == [] then []
    else
      var rest := Recent(times[..|times| - 1], now, windowMs);
      if now - times[|times| - 1] < windowMs then rest + [times[|times| - 1]] else rest
  }

  /** `canProceed` on a tool's record: the answer and the record it leaves. */
  function Ask(cfg: Config, st: Option<BreakerState>, now: int): (out: (bool, Option<BreakerState>)) {
    if st.None? then (true, st)
    else
      var s := st.value.(failureTimestamps := Recent(st.value.failureTimestamps, now, cfg.windowMs));
      if s.openedAt.Some? then
        if s.openedAt.value + cfg.cooldownMs - now > 0 then (false, Some(s))
        else (true, Some(s.(openedAt := None, halfOpen := true, failureTimestamps := [])))
      else if |s.failureTimestamps| >= cfg.failureThreshold then
        (false, Some(s.(openedAt := Some(now), halfOpen := false)))
      else (true, Some(s))
  }

  function Failure(st: Option<BreakerState>, now: int): BreakerState {
    var s := if st.Some? then st.value else BreakerState([], 0, None, false);
    var pushed := s.(calls := s.calls + 1, failureTimestamps := s.failureTimestamps + [now]);
    if s.halfOpen then pushed.(openedAt := Some(now), halfOpen := false) else pushed
  }

  function Success(s: BreakerState): BreakerState {
    s.(halfOpen := false, openedAt := None, failureTimestamps := [])
  }

  function StateOf(states: map<string, BreakerState>, tool: string): Option<BreakerState> {
    if tool in states then Some(states[tool]) else None
  }

  class CircuitBreakerService {
    const cfg: Config
    var states: map<string, BreakerState>

    constructor (cfg: Config)
      ensures this.cfg == cfg && states == map[]
    {
      this.cfg := cfg;
      states := map[];
    }

    method FilterRecent(times: seq<int>, now: int) returns (kept: seq<int>)
      ensures kept == Recent(times, now, cfg.windowMs)
      ensures forall t :: multiset(kept)[t] == if now - t < cfg.windowMs then multiset(times)[t] else 0
    {
      RecentCounts(times, now, cfg.windowMs);
      kept := [];
      for i := 0 to |times|
        invariant kept == Recent(times[..i], now, cfg.windowMs)
      {
        assert times[..i + 1][..i] == times[..i];
        if now - times[i] < cfg.windowMs {
          kept := kept + [times[i]];
        }
      }
      assert times[..|times|] == times;
    }

    method CanProceed(tool: string, now: int) returns (ok: bool)
      modifies this`states
      ensures ok == Ask(cfg, StateOf(old(states), tool), now).0
      ensures StateOf(states, tool) == Ask(cfg, StateOf(old(states), tool), now).1
      ensures forall t | t != tool :: StateOf(states, t) == StateOf(old(states), t)
      // an unknown tool goes ahead; an open record waits for the cooldown and is then probed;
      // a closed one opens at the threshold
      ensures tool !in old(states) ==> ok && states == old(states)
      ensures tool in old(states) ==>
                var was := old(states)[tool];
                var recent := |Recent(was.failureTimestamps, now, cfg.windowMs)|;
                && tool in states
                && (ok <==> if was.openedAt.Some? then was.openedAt.value + cfg.cooldownMs <= now
                            else recent < cfg.failureThreshold)
                && states[tool].calls == was.calls
                && (was.openedAt.Some? && ok ==>
                      states[tool].openedAt == None && states[tool].halfOpen && states[tool].failureTimestamps == [])
                && (was.openedAt.Some? && !ok ==>
                      states[tool].openedAt == was.openedAt && states[tool].halfOpen == was.halfOpen)
                && (was.openedAt.None? && !ok ==> states[tool].openedAt == Some(now) && !states[tool].halfOpen)
                && (was.openedAt.None? && ok ==> states[tool].openedAt == None && states[tool].halfOpen == was.halfOpen)
    {
      if tool !in states {
        return true;
      }
      var s := states[tool];
      var kept := FilterRecent(s.failureTimestamps, now);
      s := s.(failureTimestamps := kept);
      if s.openedAt.Some? {
        if s.openedAt.value + cfg.cooldownMs - now > 0 {
          ok := false;
        } else {
          s := s.(openedAt := None, halfOpen := true, failureTimestamps := []);
          ok := true;
        }
      } else if |s.failureTimestamps| >= cfg.failureThreshold {
        s := s.(openedAt := Some(now), halfOpen := false);
        ok := false;
      } else {
        ok := true;
      }
      states := states[tool := s];
    }

    method RecordSuccess(tool: string)
      modifies this`states
      ensures states == if tool in old(states) then old(states)[tool := Success(old(states)[tool])] else old(states)
      ensures tool in old(states) ==>
                states == old(states)[tool := BreakerState([], old(states)[tool].calls, None, false)]
    {
      if tool in states {
        states := states[tool := Success(states[tool])];
      }
    }

    method RecordFailure(tool: string, now: int)
      modifies this`states
      ensures states == old(states)[tool := Failure(StateOf(old(states), tool), now)]
      ensures var was := if tool in old(states) then old(states)[tool] else BreakerState([], 0, None, false);
              states == old(states)[tool := BreakerState(was.failureTimestamps + [now], was.calls + 1,
                                                         if was.halfOpen then Some(now) else was.openedAt, false)]
    {
      var s := BreakerState([], 0, None, false);
      if tool in states {
        s := states[tool];
      }
      s := s.(calls := s.calls + 1, failureTimestamps := s.failureTimestamps + [now]);
      if s.halfOpen {
        s := s.(openedAt := Some(now), halfOpen := false);
      }
      states := states[tool := s];
    }
  }

  lemma {:induction false} RecentCounts(times: seq<int>, now: int, windowMs: int)
    ensures forall t :: multiset(Recent(times, now, windowMs))[t] == if now - t < windowMs then multiset(times)[t] else 0
    decreases |times|
  {
    if times != [] {
      var init, last := times[..|times| - 1], times[|times| - 1];
      RecentCounts(init, now, windowMs);
      assert times == init + [last];
      assert Recent(times, now, windowMs)
          == Recent(init, now, windowMs) + if now - last < windowMs then [last] else [];
    }
  }

  // ---- a success starts afresh ----------------------------------------------------

  /** What a tool is answered over a sequence of calls, and the record in between; None is a success. */
  function Answers(cfg: Config, st: Option<BreakerState>, calls: seq<(int, Option<int>)>): seq<bool>
    decreases |calls|
  {
    if calls == [] then []
    else
      var (ok, asked) := Ask(cfg, st, calls[0].0);
      [ok] + Answers(cfg, if !ok then asked else Learned(asked, calls[0].1), calls[1..])
  }

  function Learned(st: Option<BreakerState>, failedAt: Option<int>): Option<BreakerState> {
    if failedAt.Some? then Some(Failure(st, failedAt.value))
    else if st.Some? then Some(Success(st.value))
    else None
  }

  /** Equal but for the number of calls; a record without failures counts as none. */
  predicate Alike(a: Option<BreakerState>, b: Option<BreakerState>) {
    var none := BreakerState([], 0, None, false);
    (if a.Some? then a.value.(calls := 0) else none) == (if b.Some? then b.value.(calls := 0) else none)
  }

  lemma AlikeAnswerAlike(cfg: Config, a: Option<BreakerState>, b: Option<BreakerState>, now: int, failedAt: Option<int>)
    requires cfg.failureThreshold > 0 && Alike(a, b)
    ensures Ask(cfg, a, now).0 == Ask(cfg, b, now).0 && Alike(Ask(cfg, a, now).1, Ask(cfg, b, now).1)
    ensures Alike(Learned(a, failedAt), Learned(b, failedAt))
  {
    assert Recent([], now, cfg.windowMs) == [];
  }

  lemma {:induction false} AlikeStayAlike(
    cfg: Config, a: Option<BreakerState>, b: Option<BreakerState>, calls: seq<(int, Option<int>)>)
    requires cfg.failureThreshold > 0 && Alike(a, b)
    ensures Answers(cfg, a, calls) == Answers(cfg, b, calls)
    decreases |calls|
  {
    if calls != [] {
      var (now, failedAt) := calls[0];
      AlikeAnswerAlike(cfg, a, b, now, failedAt);
      var (ok, a') := Ask(cfg, a, now);
      var b' := Ask(cfg, b, now).1;
      AlikeAnswerAlike(cfg, a', b', now, failedAt);
      hide Alike, Ask, Learned;
      AlikeStayAlike(cfg, if !ok then a' else Learned(a', failedAt), if !ok then b' else Learned(b', failedAt), calls[1..]);
    }
  }

  /** Whatever the record was: after a success every later answer is that of a tool never heard of. */
  lemma SuccessStartsAfresh(cfg: Config, s: BreakerState, calls: seq<(int, Option<int>)>)
    requires cfg.failureThreshold > 0
    ensures Answers(cfg, Some(Success(s)), calls) == Answers(cfg, None, calls)
  {
    AlikeStayAlike(cfg, Some(Success(s)), None, calls);
  }

  // ---- sequential runs without a success -----------------------------------

  /** One call: asked for permission, and if let through, failed later or left no record. */
  datatype Attempt = Attempt(asked: int, failedAt: Option<int>)

  /** `closed` and `probes` log the failures before and after the first opening. */
  datatype Trace = Trace(st: Option<BreakerState>, tripped: bool, closed: seq<int>, probes: seq<int>)

  const Fresh := Trace(None, false, [], [])

  function After(cfg: Config, t: Trace, a: Attempt): Trace {
    var (ok, st) := Ask(cfg, t.st, a.asked);
    var tripped := t.tripped || (st.Some? && st.value.openedAt.Some?);
    if ok && a.failedAt.Some? then
      var failed := Some(Failure(st, a.failedAt.value));
      if tripped then Trace(failed, tripped, t.closed, t.probes + [a.failedAt.value])
      else Trace(failed, tripped, t.closed + [a.failedAt.value], t.probes)
    else Trace(st, tripped, t.closed, t.probes)
  }

  function Replay(cfg: Config, attempts: seq<Attempt>): Trace {
    if attempts == [] then Fresh
    else After(cfg, Replay(cfg, attempts[..|attempts| - 1]), attempts[|attempts| - 1])
  }

  function EndOf(a: Attempt): int {
    if a.failedAt.Some? then a.failedAt.value else a.asked
  }

  /** One call in flight at a time, on a clock that never goes back. */
  predicate Sequential(attempts: seq<Attempt>) {
    && (forall i | 0 <= i < |attempts| :: attempts[i].asked <= EndOf(attempts[i]))
    && (forall i | 0 < i < |attempts| :: EndOf(attempts[i - 1]) <= attempts[i].asked)
  }

  function CountIn(times: seq<int>, lo: int, hi: int): (n: nat)
    ensures n <= |times|
  {
    if times == [] then 0
    else CountIn(times[..|times| - 1], lo, hi) + if lo <= times[|times| - 1] < hi then 1 else 0
  }

  /** How many of the times fall in [lo, lo + width). */
  function InWindow(times: seq<int>, lo: int, width: int): nat {
    CountIn(times, lo, lo + width)
  }

  predicate Spaced(times: seq<int>, gap: int) {
    forall i | 0 < i < |times| :: times[i - 1] + gap <= times[i]
  }

  lemma {:induction false} RecentOfRecent(times: seq<int>, p: int, q: int, windowMs: int)
    requires p <= q
    ensures Recent(Recent(times, p, windowMs), q, windowMs) == Recent(times, q, windowMs)
    decreases |times|
  {
    if times != [] {
      var init := times[..|times| - 1];
      RecentOfRecent(init, p, q, windowMs);
      if p - times[|times| - 1] < windowMs {
        var r := Recent(init, p, windowMs) + [times[|times| - 1]];
        assert r[..|r| - 1] == Recent(init, p, windowMs);
      }
    }
  }

  /** A window that reaches back no further than `p - windowMs` holds only recent failures. */
  lemma {:induction false} CountBelowRecent(times: seq<int>, lo: int, hi: int, p: int, windowMs: int)
    requires p - windowMs < lo
    ensures CountIn(times, lo, hi) <= |Recent(times, p, windowMs)|
    decreases |times|
  {
    if times != [] {
      CountBelowRecent(times[..|times| - 1], lo, hi, p, windowMs);
    }
  }

  /** Before the first opening: the record's timestamps are the recent part of the log. */
  ghost predicate ClosedInv(cfg: Config, t: Trace, now: int) {
    && (t.st.None? ==> t.closed == [])
    && (t.st.Some? ==>
          && !t.st.value.halfOpen && t.st.value.openedAt.None?
          && exists p :: p <= now && t.st.value.failureTimestamps == Recent(t.closed, p, cfg.windowMs))
  }

  /** After it: probes are spaced, and the next one cannot come before a cooldown has passed. */
  predicate OpenInv(cfg: Config, t: Trace, now: int) {
    && t.st.Some?
    && Spaced(t.probes, cfg.cooldownMs)
    && (t.st.value.openedAt.Some? ==>
          !t.st.value.halfOpen && (t.probes != [] ==> t.probes[|t.probes| - 1] <= t.st.value.openedAt.value))
    && (t.st.value.openedAt.None? ==>
          t.st.value.halfOpen && t.st.value.failureTimestamps == []
          && (t.probes != [] ==> t.probes[|t.probes| - 1] + cfg.cooldownMs <= now))
  }

  ghost predicate TraceInv(cfg: Config, t: Trace, now: int) {
    && (forall lo :: InWindow(t.closed, lo, cfg.windowMs) <= Max(cfg.failureThreshold, 1))
    && (if t.tripped then OpenInv(cfg, t, now) else t.probes == [] && ClosedInv(cfg, t, now))
  }

  lemma ClosedFailureFits(cfg: Config, closed: seq<int>, p: int, f: int)
    requires p <= f
    requires |Recent(closed, p, cfg.windowMs)| < cfg.failureThreshold || closed == []
    requires forall lo :: InWindow(closed, lo, cfg.windowMs) <= Max(cfg.failureThreshold, 1)
    ensures forall lo :: InWindow(closed + [f], lo, cfg.windowMs) <= Max(cfg.failureThreshold, 1)
  {
    forall lo
      ensures InWindow(closed + [f], lo, cfg.windowMs) <= Max(cfg.failureThreshold, 1)
    {
      assert (closed + [f])[..|closed|] == closed;
      assert InWindow(closed, lo, cfg.windowMs) <= Max(cfg.failureThreshold, 1);
      if lo <= f < lo + cfg.windowMs {
        CountBelowRecent(closed, lo, lo + cfg.windowMs, p, cfg.windowMs);
      }
    }
  }

  lemma ClosedStep(cfg: Config, t: Trace, a: Attempt, now: int)
    requires cfg.windowMs > 0 && cfg.cooldownMs > 0
    requires !t.tripped && TraceInv(cfg, t, now) && now <= a.asked <= EndOf(a)
    ensures TraceInv(cfg, After(cfg, t, a), EndOf(a))
  {
    var (ok, st) := Ask(cfg, t.st, a.asked);
    var t' := After(cfg, t, a);
    if t.st.Some? {
      var p :| p <= now && t.st.value.failureTimestamps == Recent(t.closed, p, cfg.windowMs);
      RecentOfRecent(t.closed, p, a.asked, cfg.windowMs);
      assert st.value.failureTimestamps == Recent(t.closed, a.asked, cfg.windowMs);
    }
    if ok && a.failedAt.Some? {
      var f := a.failedAt.value;
      assert st.Some? ==> st.value.openedAt.None?;
      ClosedFailureFits(cfg, t.closed, a.asked, f);
      assert (t.closed + [f])[..|t.closed|] == t.closed;
      assert Recent(t.closed + [f], a.asked, cfg.windowMs) == Recent(t.closed, a.asked, cfg.windowMs) + [f];
      assert t'.st.value.failureTimestamps == Recent(t.closed + [f], a.asked, cfg.windowMs);
    } else {
      assert t'.st == st && t'.closed == t.closed && t'.probes == [];
    }
  }

  lemma OpenStep(cfg: Config, t: Trace, a: Attempt, now: int)
    requires cfg.windowMs > 0 && cfg.cooldownMs > 0
    requires t.tripped && OpenInv(cfg, t, now) && now <= a.asked <= EndOf(a)
    ensures OpenInv(cfg, After(cfg, t, a), EndOf(a))
  {
    var (ok, st) := Ask(cfg, t.st, a.asked);
    var t' := After(cfg, t, a);
    assert st.Some?;
    if ok {
      assert st.value.openedAt.None? && st.value.halfOpen && st.value.failureTimestamps == [];
      assert t.probes != [] ==> t.probes[|t.probes| - 1] + cfg.cooldownMs <= a.asked;
      if a.failedAt.Some? {
        assert t'.probes == t.probes + [a.failedAt.value];
        assert t'.st.value.openedAt == Some(a.failedAt.value);
      }
    }
  }

  lemma AfterKeepsInv(cfg: Config, t: Trace, a: Attempt, now: int)
    requires cfg.windowMs > 0 && cfg.cooldownMs > 0
    requires TraceInv(cfg, t, now) && now <= a.asked <= EndOf(a)
    ensures TraceInv(cfg, After(cfg, t, a), EndOf(a))
  {
    if t.tripped {
      OpenStep(cfg, t, a, now);
      assert After(cfg, t, a).closed == t.closed && After(cfg, t, a).tripped;
    } else {
      ClosedStep(cfg, t, a, now);
    }
  }

  lemma {:induction false} ReplayKeepsInv(cfg: Config, attempts: seq<Attempt>)
    requires cfg.windowMs > 0 && cfg.cooldownMs > 0 && Sequential(attempts) && attempts != []
    ensures TraceInv(cfg, Replay(cfg, attempts), EndOf(attempts[|attempts| - 1]))
    decreases |attempts|
  {
    var init, last := attempts[..|attempts| - 1], attempts[|attempts| - 1];
    if init == [] {
      assert Fresh == Trace(None, false, [], []);
      AfterKeepsInv(cfg, Fresh, last, last.asked);
    } else {
      ReplayKeepsInv(cfg, init);
      AfterKeepsInv(cfg, Replay(cfg, init), last, EndOf(init[|init| - 1]));
    }
  }

  function CeilDiv(a: int, b: int): int
    requires b > 0
  {
    (a + b - 1) / b
  }

  /** n spaced points in [lo, hi) leave room for n - 1 gaps between lo and the last of them. */
  lemma {:induction false} SpacedCount(times: seq<int>, gap: int, lo: int, hi: int) returns (last: int)
    requires gap > 0 && Spaced(times, gap)
    ensures CountIn(times, lo, hi) > 0 ==>
              times != [] && last <= times[|times| - 1] && lo + (CountIn(times, lo, hi) - 1) * gap <= last < hi
    decreases |times|
  {
    last := lo;
    if times != [] {
      var init, t := times[..|times| - 1], times[|times| - 1];
      last := SpacedCount(init, gap, lo, hi);
      if lo <= t < hi {
        if init != [] {
          assert init[|init| - 1] + gap <= t;
        }
        var n := CountIn(init, lo, hi);
        assert n * gap == (n - 1) * gap + gap;
        last := t;
      } else if init != [] {
        assert init[|init| - 1] + gap <= t;
      }
    }
  }

  lemma SpacedFewInWindow(times: seq<int>, gap: int, lo: int, width: int)
    requires gap > 0 && width > 0 && Spaced(times, gap)
    ensures InWindow(times, lo, width) <= CeilDiv(width, gap)
  {
    var n := CountIn(times, lo, lo + width);
    if n > 0 {
      var last := SpacedCount(times, gap, lo, lo + width);
      CeilAbove(width, gap, n - 1);
    }
  }

  lemma MulMonotone(a: int, b: int, g: int)
    requires g > 0
    ensures a <= b ==> a * g <= b * g
  {
  }

  lemma CeilAbove(width: int, gap: int, k: int)
    requires gap > 0 && k * gap < width
    ensures k + 1 <= CeilDiv(width, gap)
  {
    var q := CeilDiv(width, gap);
    assert q * gap > width + gap - 1 - gap;
    MulMonotone(q, k, gap);
  }

  /**
   * In a sequential run in which nothing succeeds, any window holds at most
   * threshold failures from before the first opening and one probe failure per
   * cooldown after it; probe failures are a cooldown apart.
   */
  lemma FailuresPerWindow(cfg: Config, attempts: seq<Attempt>, lo: int)
    requires cfg.windowMs > 0 && cfg.cooldownMs > 0 && Sequential(attempts)
    ensures var t := Replay(cfg, attempts);
            && InWindow(t.closed, lo, cfg.windowMs) + InWindow(t.probes, lo, cfg.windowMs)
               <= Max(cfg.failureThreshold, 1) + CeilDiv(cfg.windowMs, cfg.cooldownMs)
            && Spaced(t.probes, cfg.cooldownMs)
  {
    var t := Replay(cfg, attempts);
    if attempts == [] {
      assert t == Fresh;
    } else {
      ReplayKeepsInv(cfg, attempts);
    }
    SpacedFewInWindow(t.probes, cfg.cooldownMs, lo, cfg.windowMs);
  }
}
