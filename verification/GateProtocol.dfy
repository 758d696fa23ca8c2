/**
 * Any number of callers racing on one idempotency key
 * (src/tools/idempotency-gate.service.ts, src/tools/tool-executor.ts).
 *
 * A caller is a program counter; each event is one atomic statement (Redis
 * SET NX, SELECT, INSERT, conditional UPDATE, complete) or the tool execution
 * itself.  Process deaths, failed statements, the stale sweep and the
 * retention delete are events like any other, so a run is any sequence of
 * events.  An event that is not enabled leaves the state alone.
 */
module GateProtocol {
  import opened Common
  import opened IdempotencyGate

  type CallerId = nat

  datatype Answer =
    | ReplayedFirst(original: ToolResult)
    | InProgressAnswer
    | Ran(result: ToolResult)

  /** `since` is the moment of the claim; a missing row id is a fail-open go-ahead. */
  datatype Pc =
    | AtRedis
    | AtFind
    | AtInsert
    | AtReread
    | AtReclaim(id: nat)
    | Claimed(row: Option<nat>, since: int)
    | Executed(row: Option<nat>, since: int, result: ToolResult)
    | Done(answer: Answer)
    | Dead

  datatype Event =
    | Arrive(c: CallerId)
    | Redis(c: CallerId, answer: RedisAnswer)
    | Find(c: CallerId, dbUp: bool)
    | Insert(c: CallerId, dbUp: bool)
    | Reread(c: CallerId, dbUp: bool)
    | Reclaim(c: CallerId, dbUp: bool)
    | Execute(c: CallerId, result: ToolResult)
    | Complete(c: CallerId, lands: bool)
    | Die(c: CallerId)
    | Sweep
    | Purge
    | Tick(now: int)

  /**
   * The last five fields are bookkeeping the proofs read and no step branches
   * on: the caller that made the row's current claim, claims lost with their
   * process before a success, successful executions and the first of their
   * results, and hazards - the moments at which the gate gave its protection
   * away (fail-open, a sweep of a claim nobody lost, a purge of a needed row).
   */
  datatype Sys = Sys(
    row: Option<Row>,
    nextId: nat,
    callers: map<CallerId, Pc>,
    now: int,
    holder: CallerId,
    orphans: nat,
    successes: nat,
    first: Option<ToolResult>,
    hazards: nat)

  function Init(now: int): Sys {
    Sys(None, 0, map[], now, 0, 0, 0, None, 0)
  }

  function At(s: Sys, c: CallerId, pc: Pc): Sys {
    s.(callers := s.callers[c := pc])
  }

  /** Fail-open: the caller runs the tool without a row behind it. */
  function FailOpen(s: Sys, c: CallerId): Sys {
    At(s, c, Claimed(None, s.now)).(hazards := s.hazards + 1)
  }

  /** `decideFromRow` up to its conditional UPDATE. */
  function DecideFrom(s: Sys, c: CallerId, r: Row): Sys {
    match Read(r)
    case Replay(original, _) => At(s, c, Done(ReplayedFirst(original)))
    case Busy => At(s, c, Done(InProgressAnswer))
    case Retry => At(s, c, AtReclaim(r.id))
  }

  function StepFind(s: Sys, c: CallerId, dbUp: bool): Sys {
    if !dbUp then FailOpen(s, c)
    else if s.row.Some? then DecideFrom(s, c, s.row.value)
    else At(s, c, AtInsert)
  }

  function StepInsert(s: Sys, c: CallerId, dbUp: bool): Sys {
    if !dbUp then FailOpen(s, c)
    else if s.row.Some? then At(s, c, AtReread)
    else At(s, c, Claimed(Some(s.nextId), s.now))
         .(row := Some(NewRow(s.nextId, s.now)), nextId := s.nextId + 1, holder := c)
  }

  function StepReread(s: Sys, c: CallerId, dbUp: bool): Sys {
    if !dbUp || s.row.None? then FailOpen(s, c) else DecideFrom(s, c, s.row.value)
  }

  function StepReclaim(s: Sys, c: CallerId, id: nat, dbUp: bool): Sys {
    if !dbUp then FailOpen(s, c)
    else if s.row.Some? && s.row.value.id == id && s.row.value.status == Failed then
      At(s, c, Claimed(Some(id), s.now)).(row := Some(Reclaimed(s.row.value, s.now)), holder := c)
    else At(s, c, Done(InProgressAnswer))
  }

  function StepExecute(s: Sys, c: CallerId, pc: Pc, result: ToolResult): Sys
    requires pc.Claimed?
  {
    var s' := At(s, c, Executed(pc.row, pc.since, result));
    if result.success
    then s'.(successes := s.successes + 1, first := if s.first.Some? then s.first else Some(result))
    else s'
  }

  function StepComplete(s: Sys, c: CallerId, pc: Pc, lands: bool): Sys
    requires pc.Executed?
  {
    var s' := At(s, c, Done(Ran(pc.result)));
    if pc.row.None? then s'
    else if !lands then (if pc.result.success then s' else s'.(orphans := s.orphans + 1))
    else if s.row.Some? && s.row.value.id == pc.row.value then
      s'.(row := Some(Completed(s.row.value, pc.result, s.now)))
    else s'
  }

  function StepDie(s: Sys, c: CallerId, pc: Pc): Sys {
    var s' := At(s, c, Dead);
    if Ticket(pc) then s'.(orphans := s.orphans + 1) else s'
  }

  function StepSweep(s: Sys): Sys {
    if s.row.Some? && Stale(s.row.value, s.now) then
      var s' := s.(row := Some(Swept(s.row.value, s.now)));
      if s.orphans > 0 then s'.(orphans := s.orphans - 1) else s'.(hazards := s.hazards + 1)
    else s
  }

  function StepPurge(s: Sys): Sys {
    if s.row.Some? && PastRetention(s.row.value, s.now) then
      s.(row := None, hazards := s.hazards + if s.row.value.status == Failed then 0 else 1)
    else s
  }

  function Step(s: Sys, e: Event): Sys {
    match e
    case Arrive(c) => if c in s.callers then s else At(s, c, AtRedis)
    case Tick(now) => if s.now <= now then s.(now := now) else s
    case Sweep => StepSweep(s)
    case Purge => StepPurge(s)
    case _ =>
      if e.c !in s.callers then s else
      var pc := s.callers[e.c];
      match e
      case Redis(c, answer) =>
        if pc != AtRedis then s
        else At(s, c, if answer == Duplicate then AtFind else AtInsert)
      case Find(c, dbUp) => if pc == AtFind then StepFind(s, c, dbUp) else s
      case Insert(c, dbUp) => if pc == AtInsert then StepInsert(s, c, dbUp) else s
      case Reread(c, dbUp) => if pc == AtReread then StepReread(s, c, dbUp) else s
      case Reclaim(c, dbUp) => if pc.AtReclaim? then StepReclaim(s, c, pc.id, dbUp) else s
      case Execute(c, result) => if pc.Claimed? then StepExecute(s, c, pc, result) else s
      case Complete(c, lands) => if pc.Executed? then StepComplete(s, c, pc, lands) else s
      case Die(c) => if pc.Done? || pc.Dead? then s else StepDie(s, c, pc)
      case _ => s
  }

  function Run(s: Sys, events: seq<Event>): Sys
    decreases |events|
  {
    if events == [] then s else Run(Step(s, events[0]), events[1..])
  }

  // ---- what can still become a success ------------------------------------

  /** A caller that may execute, or whose failure may still free the row for another. */
  predicate Ticket(pc: Pc) {
    pc.Claimed? || (pc.Executed? && !pc.result.success)
  }

  predicate Outstanding(pc: Pc) {
    pc.Claimed? || pc.Executed?
  }

  /** An execution that succeeded and has not yet been written back. */
  predicate Fulfilled(pc: Pc) {
    pc.Executed? && pc.result.success
  }

  function Where(callers: map<CallerId, Pc>, p: Pc -> bool): set<CallerId> {
    set c | c in callers && p(callers[c])
  }

  function Free(row: Option<Row>): nat {
    if row.None? || row.value.status == Failed then 1 else 0
  }

  lemma WhereElsewhere(callers: map<CallerId, Pc>, p: Pc -> bool, c: CallerId, pc: Pc)
    ensures Where(callers[c := pc], p) - {c} == Where(callers, p) - {c}
  {
    var updated := callers[c := pc];
    forall d | d != c
      ensures d in Where(updated, p) <==> d in Where(callers, p)
    {
      assert d in updated <==> d in callers;
    }
  }

  lemma WhereUpdate(callers: map<CallerId, Pc>, p: Pc -> bool, c: CallerId, pc: Pc)
    ensures |Where(callers[c := pc], p)|
         == |Where(callers, p)| - (if c in callers && p(callers[c]) then 1 else 0) + (if p(pc) then 1 else 0)
  {
    WhereElsewhere(callers, p, c, pc);
    CardinalityWithout(Where(callers, p), c);
    CardinalityWithout(Where(callers[c := pc], p), c);
  }

  /** Successes so far plus successes still possible never exceed one plus the hazards. */
  predicate Bounded(s: Sys) {
    s.successes + |Where(s.callers, Ticket)| + Free(s.row) + s.orphans <= 1 + s.hazards
  }

  predicate Housekeeping(e: Event) {
    e.Tick? || e.Sweep? || e.Purge?
  }

  /** The events of a caller that holds a claim. */
  predicate OfClaimant(e: Event) {
    e.Execute? || e.Complete? || e.Die?
  }

  lemma AskingKeepsBound(s: Sys, e: Event)
    requires Bounded(s) && !Housekeeping(e) && !OfClaimant(e)
    ensures Bounded(Step(s, e))
  {
    var s' := Step(s, e);
    if s' != s {
      WhereUpdate(s.callers, Ticket, e.c, s'.callers[e.c]);
    }
  }

  lemma ClaimantKeepsBound(s: Sys, e: Event)
    requires Bounded(s) && OfClaimant(e)
    ensures Bounded(Step(s, e))
  {
    var s' := Step(s, e);
    if s' != s {
      WhereUpdate(s.callers, Ticket, e.c, s'.callers[e.c]);
    }
  }

  lemma StepKeepsBound(s: Sys, e: Event)
    requires Bounded(s)
    ensures Bounded(Step(s, e))
  {
    if Housekeeping(e) {
      hide PastRetention, Stale;
    } else if OfClaimant(e) {
      hide Step, Bounded;
      ClaimantKeepsBound(s, e);
    } else {
      hide Step, Bounded;
      AskingKeepsBound(s, e);
    }
  }

  lemma {:induction false} RunKeepsBound(s: Sys, events: seq<Event>)
    requires Bounded(s)
    ensures Bounded(Run(s, events))
    decreases |events|
  {
    if events != [] {
      StepKeepsBound(s, events[0]);
      RunKeepsBound(Step(s, events[0]), events[1..]);
    }
  }

  /**
   * With no assumption at all: whatever dies, fails, is swept or is purged, the
   * number of successful executions is at most one plus the number of hazards.
   */
  lemma SuccessesWithinHazards(now: int, events: seq<Event>)
    ensures var s := Run(Init(now), events); s.successes <= 1 + s.hazards
  {
    assert Where(Init(now).callers, Ticket) == {};
    RunKeepsBound(Init(now), events);
  }

  lemma RunCons(s: Sys, e: Event, rest: seq<Event>)
    ensures Run(s, [e] + rest) == Run(Step(s, e), rest)
  {
    assert ([e] + rest)[1..] == rest;
  }

  lemma {:induction false} RunSplit(s: Sys, a: seq<Event>, b: seq<Event>)
    ensures Run(s, a + b) == Run(Run(s, a), b)
    decreases |a|
  {
    if a == [] {
      assert a + b == b;
    } else {
      assert (a + b)[1..] == a[1..] + b;
      RunSplit(Step(s, a[0]), a[1..], b);
    }
  }

  lemma {:induction false} HazardsOnlyGrow(s: Sys, events: seq<Event>)
    ensures s.hazards <= Run(s, events).hazards
    decreases |events|
  {
    if events != [] {
      HazardsOnlyGrow(Step(s, events[0]), events[1..]);
    }
  }

  /**
   * What a hazard is: a caller lets itself through without the database, or
   * re-reads a row that is gone; a sweep fails a claim that nobody lost; a purge takes
   * a row that is not failed.
   */
  ghost predicate Unprotected(s: Sys, e: Event) {
    match e
    case Find(c, dbUp) => c in s.callers && s.callers[c] == AtFind && !dbUp
    case Insert(c, dbUp) => c in s.callers && s.callers[c] == AtInsert && !dbUp
    case Reread(c, dbUp) => c in s.callers && s.callers[c] == AtReread && (!dbUp || s.row.None?)
    case Reclaim(c, dbUp) => c in s.callers && s.callers[c].AtReclaim? && !dbUp
    case Sweep =>
      s.row.Some? && s.row.value.status == InFlight && s.row.value.firstSeenAt < s.now - IN_FLIGHT_TIMEOUT_MS && s.orphans == 0
    case Purge => s.row.Some? && s.row.value.createdAt < s.now - RETENTION_MS && s.row.value.status != Failed
    case _ => false
  }

  /** Hazards count exactly those moments, and the first success stays the first. */
  lemma HazardsAreUnprotectedMoments(s: Sys, e: Event)
    ensures Step(s, e).hazards == s.hazards + if Unprotected(s, e) then 1 else 0
    ensures s.first.Some? ==> Step(s, e).first == s.first
  {
    hide NewRow, Reclaimed, Completed, Swept, Read;
  }

  /** A completion that does not reach the database tells its caller all the same and leaves the row as it was. */
  lemma LostCompletionLeavesTheRow(s: Sys, c: CallerId)
    requires c in s.callers && s.callers[c].Executed?
    ensures var t := Step(s, Complete(c, false));
            t.row == s.row && t.callers == s.callers[c := Done(Ran(s.callers[c].result))] && t.holder == s.holder
  {
  }

  // ---- as long as no hazard has happened -----------------------------------

  predicate StoredSuccess(row: Option<Row>) {
    row.Some? && row.value.status == Succeeded
  }

  /** One result exists, and everything that speaks of a success speaks of that one. */
  predicate Faithful(s: Sys) {
    && (s.first.Some? <==> s.successes >= 1)
    && |Where(s.callers, Fulfilled)| + (if StoredSuccess(s.row) then 1 else 0) <= s.successes
    && (s.row.Some? ==> s.row.value.json == if StoredSuccess(s.row) && s.first.Some? then Encoded(s.first.value) else Null)
    && forall c | c in s.callers :: SpeaksOfFirst(s.callers[c], s.first)
  }

  predicate SpeaksOfFirst(pc: Pc, first: Option<ToolResult>) {
    match pc
    case Executed(_, _, result) => result.success ==> first == Some(result)
    case Done(ReplayedFirst(original)) => first == Some(original)
    case Done(Ran(result)) => result.success ==> first == Some(result)
    case _ => true
  }

  predicate Inv(s: Sys) {
    Bounded(s) && (s.hazards == 0 ==> Faithful(s))
  }

  lemma AskingKeepsFaithful(s: Sys, e: Event)
    requires Bounded(s) && s.hazards == 0 && Faithful(s) && Step(s, e).hazards == 0
    requires !Housekeeping(e) && !OfClaimant(e)
    ensures Faithful(Step(s, e))
  {
    hide Bounded, Where, Completed;
    var s' := Step(s, e);
    if s' != s {
      WhereUpdate(s.callers, Fulfilled, e.c, s'.callers[e.c]);
    }
  }

  lemma ClaimantKeepsFaithful(s: Sys, e: Event)
    requires Bounded(s) && s.hazards == 0 && Faithful(s) && Step(s, e).hazards == 0
    requires OfClaimant(e)
    ensures Faithful(Step(s, e))
  {
    hide NewRow, Reclaimed;
    var s' := Step(s, e);
    if s' != s {
      WhereUpdate(s.callers, Fulfilled, e.c, s'.callers[e.c]);
      if Ticket(s.callers[e.c]) {
        assert e.c in Where(s.callers, Ticket);
      }
      if Fulfilled(s.callers[e.c]) {
        assert e.c in Where(s.callers, Fulfilled);
      }
    }
  }

  lemma StepKeepsFaithful(s: Sys, e: Event)
    requires Bounded(s) && s.hazards == 0 && Faithful(s) && Step(s, e).hazards == 0
    ensures Faithful(Step(s, e))
  {
    if Housekeeping(e) {
      hide PastRetention, Stale, Bounded, SpeaksOfFirst;
    } else if OfClaimant(e) {
      hide Step, Bounded, Faithful;
      ClaimantKeepsFaithful(s, e);
    } else {
      hide Step, Bounded, Faithful;
      AskingKeepsFaithful(s, e);
    }
  }

  lemma {:induction false} RunKeepsInv(s: Sys, events: seq<Event>)
    requires Inv(s)
    ensures Inv(Run(s, events))
    decreases |events|
  {
    if events != [] {
      var s' := Step(s, events[0]);
      StepKeepsBound(s, events[0]);
      if s'.hazards == 0 {
        StepKeepsFaithful(s, events[0]);
      }
      RunKeepsInv(s', events[1..]);
    }
  }

  lemma InitInv(now: int)
    ensures Inv(Init(now))
  {
    assert Where(Init(now).callers, Ticket) == {};
    assert Where(Init(now).callers, Fulfilled) == {};
  }

  /** Never more than one claim is out, from the claim until its result is written back. */
  lemma AtMostOneOutstanding(now: int, events: seq<Event>)
    requires Run(Init(now), events).hazards == 0
    ensures |Where(Run(Init(now), events).callers, Outstanding)| <= 1
  {
    var s := Run(Init(now), events);
    InitInv(now);
    RunKeepsInv(Init(now), events);
    assert Where(s.callers, Outstanding) == Where(s.callers, Ticket) + Where(s.callers, Fulfilled);
    assert Where(s.callers, Ticket) !! Where(s.callers, Fulfilled);
  }

  /** Every answer that reports a success - run here or replayed - carries the one first result. */
  lemma AnswersCarryFirstResult(now: int, events: seq<Event>, c: CallerId)
    requires Run(Init(now), events).hazards == 0
    requires c in Run(Init(now), events).callers
    ensures SpeaksOfFirst(Run(Init(now), events).callers[c], Run(Init(now), events).first)
    ensures StoredSuccess(Run(Init(now), events).row) ==>
              Run(Init(now), events).first.Some?
              && Run(Init(now), events).row.value.json == Encoded(Run(Init(now), events).first.value)
  {
    InitInv(now);
    RunKeepsInv(Init(now), events);
  }

  // ---- after the first success is stored -------------------------------------

  predicate Waiting(pc: Pc) {
    pc == AtRedis || pc == AtFind || pc == AtInsert || pc == AtReread || pc == Dead
  }

  lemma NobodyOutstanding(s: Sys)
    requires Inv(s) && s.hazards == 0 && StoredSuccess(s.row)
    ensures forall c | c in s.callers :: !Outstanding(s.callers[c])
  {
    assert Where(s.callers, Ticket) == {} && Where(s.callers, Fulfilled) == {};
    forall c | c in s.callers ensures !Outstanding(s.callers[c]) {
      assert c !in Where(s.callers, Ticket) && c !in Where(s.callers, Fulfilled);
    }
  }

  predicate NewcomersReplay(s: Sys, known: set<CallerId>, r: ToolResult) {
    forall c | c in s.callers && c !in known :: Waiting(s.callers[c]) || s.callers[c] == Done(ReplayedFirst(r))
  }

  /** The stored row never changes again, and whoever arrives later gets it replayed and never runs the tool. */
  lemma {:induction false} LaterCallersReplay(s: Sys, known: set<CallerId>, r: ToolResult, events: seq<Event>)
    requires Inv(s) && StoredSuccess(s.row) && s.row.value.json == Encoded(r)
    requires NewcomersReplay(s, known, r)
    requires Run(s, events).hazards == 0
    ensures Run(s, events).row == s.row
    ensures NewcomersReplay(Run(s, events), known, r)
    decreases |events|
  {
    HazardsOnlyGrow(s, events);
    if events != [] {
      var e := events[0];
      var s' := Step(s, e);
      HazardsOnlyGrow(s', events[1..]);
      StepKeepsBound(s, e);
      StepKeepsFaithful(s, e);
      NobodyOutstanding(s);
      assert s'.row == s.row;
      LaterCallersReplay(s', known, r, events[1..]);
    }
  }

  // ---- the operating assumptions ------------------------------------------------

  /** Statements reach the database, completions land, no process dies holding an unwritten
      success, executions end inside the sweep timeout, and the row is retained. */
  predicate Allowed(s: Sys, e: Event) {
    match e
    case Find(_, dbUp) => dbUp
    case Insert(_, dbUp) => dbUp
    case Reread(_, dbUp) => dbUp
    case Reclaim(_, dbUp) => dbUp
    case Complete(_, lands) => lands
    case Die(c) => c in s.callers ==> !Fulfilled(s.callers[c])
    case Tick(now) => forall c | c in s.callers && Outstanding(s.callers[c]) :: now <= s.callers[c].since + IN_FLIGHT_TIMEOUT_MS
    case Purge => s.row.Some? ==> s.row.value.createdAt >= s.now - RETENTION_MS
    case _ => true
  }

  predicate AllowedRun(s: Sys, events: seq<Event>)
    decreases |events|
  {
    events == [] || (Allowed(s, events[0]) && AllowedRun(Step(s, events[0]), events[1..]))
  }

  /** A purge takes exactly the row that was created more than thirty days ago. */
  lemma PurgeGoesByAge(s: Sys)
    ensures Step(s, Purge).row
            == if s.row.Some? && s.row.value.createdAt < s.now - RETENTION_MS then None else s.row
    ensures s.row.Some? && s.row.value.createdAt >= s.now - RETENTION_MS ==> Step(s, Purge) == s
  {
  }

  lemma StepKeepsYoungRow(s: Sys, e: Event)
    requires s.row.Some?
    ensures var t := Step(s, e);
            && s.now <= t.now
            && (t.now <= s.row.value.createdAt + RETENTION_MS ==>
                  t.row.Some? && t.row.value.id == s.row.value.id && t.row.value.createdAt == s.row.value.createdAt)
  {
    hide Read, Stale;
  }

  /** Whatever happens, a key keeps its row for thirty days from its creation. */
  lemma {:induction false} RowLivesThirtyDays(s: Sys, events: seq<Event>)
    requires s.row.Some? && Run(s, events).now <= s.row.value.createdAt + RETENTION_MS
    ensures var t := Run(s, events);
            t.row.Some? && t.row.value.id == s.row.value.id && t.row.value.createdAt == s.row.value.createdAt
    decreases |events|
  {
    if events != [] {
      StepKeepsYoungRow(s, events[0]);
      ClockNeverBack(Step(s, events[0]), events[1..]);
      hide Step;
      RowLivesThirtyDays(Step(s, events[0]), events[1..]);
    }
  }

  lemma {:induction false} ClockNeverBack(s: Sys, events: seq<Event>)
    ensures s.now <= Run(s, events).now
    decreases |events|
  {
    if events != [] {
      ClockNeverBack(Step(s, events[0]), events[1..]);
    }
  }

  /** A row in flight belongs to a prompt live caller or to one that died before succeeding. */
  predicate Attended(s: Sys) {
    && s.hazards == 0
    && (forall c | c in s.callers && s.callers[c] == AtReread :: s.row.Some?)
    && (forall c | c in s.callers && Outstanding(s.callers[c]) :: s.now <= s.callers[c].since + IN_FLIGHT_TIMEOUT_MS)
    && (s.row.Some? && s.row.value.status == InFlight && s.orphans == 0 ==>
          && s.holder in s.callers
          && Outstanding(s.callers[s.holder])
          && s.callers[s.holder].row == Some(s.row.value.id)
          && s.callers[s.holder].since == s.row.value.firstSeenAt)
  }

  lemma AskingKeepsAttended(s: Sys, e: Event)
    requires Attended(s) && Allowed(s, e) && !Housekeeping(e) && !OfClaimant(e)
    ensures Attended(Step(s, e))
  {
    hide Completed;
  }

  lemma ClaimantKeepsAttended(s: Sys, e: Event)
    requires Attended(s) && Allowed(s, e) && OfClaimant(e)
    ensures Attended(Step(s, e))
  {
    hide NewRow, Reclaimed;
  }

  lemma StepKeepsAttended(s: Sys, e: Event)
    requires Attended(s) && Allowed(s, e)
    ensures Attended(Step(s, e))
  {
    if !Housekeeping(e) {
      hide Step, Attended, Allowed;
      if OfClaimant(e) {
        ClaimantKeepsAttended(s, e);
      } else {
        AskingKeepsAttended(s, e);
      }
    }
  }

  lemma {:induction false} AssumptionsPreventHazards(s: Sys, events: seq<Event>)
    requires Attended(s) && AllowedRun(s, events)
    ensures Run(s, events).hazards == 0
    decreases |events|
  {
    if events != [] {
      StepKeepsAttended(s, events[0]);
      AssumptionsPreventHazards(Step(s, events[0]), events[1..]);
    }
  }

  /** The design's promise under its own assumptions: one success, one claim at a time, one answer. */
  lemma OneSuccessUnderAssumptions(now: int, events: seq<Event>)
    requires AllowedRun(Init(now), events)
    ensures var s := Run(Init(now), events);
            && s.successes <= 1
            && |Where(s.callers, Outstanding)| <= 1
            && forall c | c in s.callers :: SpeaksOfFirst(s.callers[c], s.first)
  {
    AssumptionsPreventHazards(Init(now), events);
    SuccessesWithinHazards(now, events);
    AtMostOneOutstanding(now, events);
    forall c | c in Run(Init(now), events).callers
      ensures SpeaksOfFirst(Run(Init(now), events).callers[c], Run(Init(now), events).first)
    {
      AnswersCarryFirstResult(now, events, c);
    }
  }

  // ---- races and solo runs --------------------------------------------------------

  /** A caller's conditional UPDATE of the row with this id reaches the database. */
  predicate TriesReclaim(s: Sys, e: Event, id: nat) {
    e.Reclaim? && e.dbUp && e.c in s.callers && s.callers[e.c] == AtReclaim(id)
  }

  /** The callers whose conditional UPDATE reaches the database, in order. */
  function Tries(s: Sys, events: seq<Event>, id: nat): seq<CallerId>
    decreases |events|
  {
    if events == [] then []
    else (if TriesReclaim(s, events[0], id) then [events[0].c] else []) + Tries(Step(s, events[0]), events[1..], id)
  }

  /** The row is written by nothing but a conditional UPDATE: no completion, sweep or purge of it. */
  predicate OnlyReclaimed(s: Sys, events: seq<Event>)
    decreases |events|
  {
    events == []
    || ((Step(s, events[0]).row == s.row || events[0].Reclaim?) && OnlyReclaimed(Step(s, events[0]), events[1..]))
  }

  lemma {:induction false} DoneStays(s: Sys, events: seq<Event>, c: CallerId)
    requires c in s.callers && s.callers[c].Done?
    ensures c in Run(s, events).callers && Run(s, events).callers[c] == s.callers[c]
    decreases |events|
  {
    if events != [] {
      DoneStaysOneStep(s, events[0], c);
      hide Step;
      DoneStays(Step(s, events[0]), events[1..], c);
    }
  }

  lemma DoneStaysOneStep(s: Sys, e: Event, c: CallerId)
    requires c in s.callers && s.callers[c].Done?
    ensures c in Step(s, e).callers && Step(s, e).callers[c] == s.callers[c]
  {
    hide Read, NewRow, Reclaimed, Completed, Swept, Stale, PastRetention;
  }

  /** On a row that is not failed a conditional UPDATE changes nothing and its caller is told so. */
  lemma LoserStep(s: Sys, e: Event)
    requires s.row.Some? && s.row.value.status != Failed
    requires Step(s, e).row == s.row || e.Reclaim?
    ensures Step(s, e).row == s.row && Step(s, e).holder == s.holder
    ensures TriesReclaim(s, e, s.row.value.id) ==>
              e.c in Step(s, e).callers && Step(s, e).callers[e.c] == Done(InProgressAnswer)
  {
    hide Read, NewRow, Completed, Swept, Stale, PastRetention;
  }

  lemma {:induction false} LosersSeeInProgress(s: Sys, events: seq<Event>)
    requires s.row.Some? && s.row.value.status != Failed && OnlyReclaimed(s, events)
    ensures var s' := Run(s, events);
            && s'.row == s.row && s'.holder == s.holder
            && forall c | c in Tries(s, events, s.row.value.id) ::
                 c in s'.callers && s'.callers[c] == Done(InProgressAnswer)
    decreases |events|
  {
    if events != [] {
      var id, t := s.row.value.id, Step(s, events[0]);
      LoserStep(s, events[0]);
      LosersSeeInProgress(t, events[1..]);
      if TriesReclaim(s, events[0], id) {
        DoneStays(t, events[1..], events[0].c);
      }
      hide Step, TriesReclaim;
    }
  }

  /** Until the first conditional UPDATE a failed row stays as it is; that one claims it. */
  lemma WinnerStep(s: Sys, e: Event)
    requires s.row.Some? && s.row.value.status == Failed
    requires Step(s, e).row == s.row || e.Reclaim?
    ensures if TriesReclaim(s, e, s.row.value.id)
            then Step(s, e).row == Some(Reclaimed(s.row.value, s.now)) && Step(s, e).holder == e.c
                 && Step(s, e).callers[e.c] == Claimed(Some(s.row.value.id), s.now)
            else Step(s, e).row == s.row && Step(s, e).holder == s.holder
  {
    hide Read, NewRow, Completed, Swept, Stale, PastRetention;
  }

  /**
   * Between two completions of any run, with whatever else happens in
   * between: of the callers whose conditional UPDATE reaches the failed row the
   * first claims it and all others are told that it is in progress. Without any
   * such caller the row stays failed.
   */
  lemma {:induction false} ExactlyOneReclaims(s: Sys, events: seq<Event>)
    requires s.row.Some? && s.row.value.status == Failed && OnlyReclaimed(s, events)
    ensures var tries, s' := Tries(s, events, s.row.value.id), Run(s, events);
            if tries == [] then s'.row == s.row && s'.holder == s.holder
            else
              && (exists now :: s'.row == Some(Reclaimed(s.row.value, now)))
              && s'.holder == tries[0]
              && forall i | 1 <= i < |tries| ::
                   tries[i] in s'.callers && s'.callers[tries[i]] == Done(InProgressAnswer)
    decreases |events|
  {
    if events != [] {
      var id, t := s.row.value.id, Step(s, events[0]);
      WinnerStep(s, events[0]);
      if TriesReclaim(s, events[0], id) {
        LosersSeeInProgress(t, events[1..]);
        assert Tries(s, events, id) == [events[0].c] + Tries(t, events[1..], id);
        assert Run(s, events).row == Some(Reclaimed(s.row.value, s.now));
      } else {
        ExactlyOneReclaims(t, events[1..]);
        assert Tries(s, events, id) == [] + Tries(t, events[1..], id);
        assert [] + Tries(t, events[1..], id) == Tries(t, events[1..], id);
      }
    }
  }

  // ---- the fast path -----------------------------------------------------------------

  /** The same state with every caller that Redis sent to the SELECT first still before its INSERT. */
  function BeforeInsert(s: Sys): Sys {
    s.(callers := map c | c in s.callers :: if s.callers[c] == AtFind then AtInsert else s.callers[c])
  }

  predicate Finding(s: Sys, c: CallerId) {
    c in s.callers && s.callers[c] == AtFind
  }

  /** What the same caller does in a world where Redis always answers fresh. */
  function AsFresh(s: Sys, e: Event): seq<Event> {
    match e
    case Redis(c, _) => [Redis(c, Fresh)]
    case Find(c, dbUp) =>
      if !Finding(s, c) then []
      else if !dbUp then [Insert(c, false)]
      else if s.row.Some? then [Insert(c, true), Reread(c, true)]
      else []
    case Insert(c, _) => if Finding(s, c) then [] else [e]
    case _ => [e]
  }

  function RunAsFresh(s: Sys, events: seq<Event>): seq<Event>
    decreases |events|
  {
    if events == [] then [] else AsFresh(s, events[0]) + RunAsFresh(Step(s, events[0]), events[1..])
  }

  lemma RunOfAtMostTwo(s: Sys, e: Event, f: Event)
    ensures Run(s, []) == s && Run(s, [e]) == Step(s, e) && Run(s, [e, f]) == Step(Step(s, e), f)
  {
    assert [e, f][1..] == [f] && [f][1..] == [] && [e][1..] == [];
    assert Run(Step(s, e), [f]) == Step(Step(s, e), f);
  }

  lemma FindAsFresh(s: Sys, c: CallerId, dbUp: bool)
    ensures Run(BeforeInsert(s), AsFresh(s, Find(c, dbUp))) == BeforeInsert(Step(s, Find(c, dbUp)))
  {
    var b := BeforeInsert(s);
    RunOfAtMostTwo(b, Insert(c, dbUp), Reread(c, true));
    hide Run;
    if Finding(s, c) {
      var t := Step(s, Find(c, dbUp));
      if dbUp && s.row.Some? {
        var b1 := Step(b, Insert(c, true));
        assert b1 == At(b, c, AtReread);
        assert Step(b1, Reread(c, true)).callers == BeforeInsert(t).callers;
      } else {
        assert BeforeInsert(t).callers
            == if dbUp then b.callers else b.callers[c := Claimed(None, s.now)];
      }
    }
  }

  /** Callers that differ in one counter differ in one counter before their INSERTs. */
  lemma OneMoves(s: Sys, t: Sys, c: CallerId)
    requires c in t.callers && t.callers == s.callers[c := t.callers[c]] && t.callers[c] != AtFind
    ensures BeforeInsert(t).callers == BeforeInsert(s).callers[c := t.callers[c]]
  {
  }

  lemma MoveAsFresh(s: Sys, e: Event)
    requires e.Arrive? || e.Reread? || e.Reclaim?
    ensures Step(BeforeInsert(s), e) == BeforeInsert(Step(s, e))
  {
    hide NewRow, Reclaimed;
    var t := Step(s, e);
    if t != s {
      OneMoves(s, t, e.c);
    }
    hide BeforeInsert;
  }

  lemma EndAsFresh(s: Sys, e: Event)
    requires e.Execute? || e.Complete? || e.Die?
    ensures Step(BeforeInsert(s), e) == BeforeInsert(Step(s, e))
  {
    hide Completed, Read;
    var t := Step(s, e);
    if e.c in s.callers && t.callers != s.callers {
      OneMoves(s, t, e.c);
    }
  }

  lemma OtherAsFresh(s: Sys, e: Event)
    requires !e.Find? && !e.Redis? && !e.Insert?
    ensures Step(BeforeInsert(s), e) == BeforeInsert(Step(s, e))
  {
    if e.Arrive? || e.Reread? || e.Reclaim? {
      MoveAsFresh(s, e);
    } else if e.Execute? || e.Complete? || e.Die? {
      EndAsFresh(s, e);
    } else {
      hide Swept, Stale, PastRetention;
    }
  }

  lemma ArrivalAsFresh(s: Sys, e: Event)
    requires e.Redis? || e.Insert?
    ensures Run(BeforeInsert(s), AsFresh(s, e)) == BeforeInsert(Step(s, e))
  {
    RunOfAtMostTwo(BeforeInsert(s), if e.Redis? then Redis(e.c, Fresh) else e, e);
    if e.Redis? {
      RedisAsFresh(s, e.c, e.answer);
    } else {
      InsertAsFresh(s, e.c, e.dbUp);
    }
    hide Run, Step, BeforeInsert;
  }

  lemma RedisAsFresh(s: Sys, c: CallerId, answer: RedisAnswer)
    ensures Step(BeforeInsert(s), Redis(c, Fresh)) == BeforeInsert(Step(s, Redis(c, answer)))
  {
    assert Step(BeforeInsert(s), Redis(c, Fresh)).callers == BeforeInsert(Step(s, Redis(c, answer))).callers;
  }

  lemma InsertAsFresh(s: Sys, c: CallerId, dbUp: bool)
    ensures Finding(s, c) ==> Step(s, Insert(c, dbUp)) == s
    ensures !Finding(s, c) ==> Step(BeforeInsert(s), Insert(c, dbUp)) == BeforeInsert(Step(s, Insert(c, dbUp)))
  {
    hide NewRow;
    var t := Step(s, Insert(c, dbUp));
    if t != s {
      OneMoves(s, t, c);
    }
  }

  /**
   * Redis only chooses the path, in every interleaving: each run is matched,
   * statement by statement, by one in which Redis answers fresh to everybody.
   * Row, claims, successes, hazards and every answer given are the same; only
   * a caller between the fast path and its SELECT stands before its INSERT.
   */
  lemma {:induction false} FastPathSimulated(s: Sys, events: seq<Event>)
    ensures Run(BeforeInsert(s), RunAsFresh(s, events)) == BeforeInsert(Run(s, events))
    ensures forall e | e in RunAsFresh(s, events) :: !e.Find? && (e.Redis? ==> e.answer == Fresh)
    decreases |events|
  {
    if events != [] {
      var e := events[0];
      RunSplit(BeforeInsert(s), AsFresh(s, e), RunAsFresh(Step(s, e), events[1..]));
      FastPathSimulated(Step(s, e), events[1..]);
      match e {
        case Find(c, dbUp) => FindAsFresh(s, c, dbUp);
        case Redis(_, _) => ArrivalAsFresh(s, e);
        case Insert(_, _) => ArrivalAsFresh(s, e);
        case _ =>
          OtherAsFresh(s, e);
          RunOfAtMostTwo(BeforeInsert(s), e, e);
      }
      assert Run(BeforeInsert(s), AsFresh(s, e)) == BeforeInsert(Step(s, e));
      hide Step, BeforeInsert;
    }
  }

  /** How a decision of the sequential table shows up as a program counter. */
  function Counter(d: Decision, now: int): Pc {
    match d
    case Proceed(h) => Claimed(if h.Some? then Some(h.value.id) else None, now)
    case Replayed(original, _) => Done(ReplayedFirst(original))
    case InProgress => Done(InProgressAnswer)
    case Rejected => Done(InProgressAnswer)
  }

  predicate SameRow(t: Sys, s: Sys) {
    t.row == s.row && t.nextId == s.nextId && t.now == s.now
  }

  /** The caller has read the row and stands where that puts it. */
  predicate HasRead(t: Sys, s: Sys, c: CallerId) {
    && SameRow(t, s) && s.row.Some? && c in t.callers
    && t.callers[c] == match Read(s.row.value)
                       case Replay(original, _) => Done(ReplayedFirst(original))
                       case Busy => Done(InProgressAnswer)
                       case Retry => AtReclaim(s.row.value.id)
  }

  predicate AboutToInsert(t: Sys, s: Sys, c: CallerId) {
    SameRow(t, s) && c in t.callers && t.callers[c] == AtInsert
  }

  lemma AloneUpToFind(s: Sys, c: CallerId, answer: RedisAnswer)
    requires c !in s.callers
    ensures var t := Step(Step(Step(s, Arrive(c)), Redis(c, answer)), Find(c, true));
            AboutToInsert(t, s, c) || HasRead(t, s, c)
  {
    var s2 := Step(Step(s, Arrive(c)), Redis(c, answer));
    assert SameRow(s2, s) && c in s2.callers && s2.callers[c] == if answer == Duplicate then AtFind else AtInsert;
  }

  lemma AloneUpToReread(t: Sys, s: Sys, c: CallerId)
    requires AboutToInsert(t, s, c) || HasRead(t, s, c)
    ensures var u := Step(Step(t, Insert(c, true)), Reread(c, true));
            if s.row.Some? then HasRead(u, s, c)
            else u.row == Some(NewRow(s.nextId, s.now)) && c in u.callers && u.callers[c] == Claimed(Some(s.nextId), s.now)
  {
    if AboutToInsert(t, s, c) {
      var t1 := Step(t, Insert(c, true));
      assert s.row.Some? ==> SameRow(t1, s) && t1.callers[c] == AtReread;
    }
  }

  lemma AloneUpToReclaim(u: Sys, s: Sys, c: CallerId, key: Key)
    requires if s.row.Some? then HasRead(u, s, c)
             else u.row == Some(NewRow(s.nextId, s.now)) && c in u.callers && u.callers[c] == Claimed(Some(s.nextId), s.now)
    ensures var s' := Step(u, Reclaim(c, true));
            var (decision, row) := MySqlOnly(s.row, key, s.nextId, s.now);
            s'.row == Some(row) && c in s'.callers && s'.callers[c] == Counter(decision, s.now)
  {
    hide NewRow, Reclaimed;
  }

  /** Redis only chooses the path: left alone, a caller decides as MySQL alone would, for every answer. */
  lemma FastPathInvisible(s: Sys, c: CallerId, key: Key, answer: RedisAnswer)
    requires c !in s.callers
    ensures var solo := [Arrive(c), Redis(c, answer), Find(c, true), Insert(c, true), Reread(c, true), Reclaim(c, true)];
            var s' := Run(s, solo);
            var (decision, row) := MySqlOnly(s.row, key, s.nextId, s.now);
            s'.row == Some(row) && c in s'.callers && s'.callers[c] == Counter(decision, s.now)
  {
    hide *;
    var s1 := Step(s, Arrive(c));
    var s2 := Step(s1, Redis(c, answer));
    var s3 := Step(s2, Find(c, true));
    var s4 := Step(s3, Insert(c, true));
    var s5 := Step(s4, Reread(c, true));
    var s6 := Step(s5, Reclaim(c, true));
    RunSix(s, [Arrive(c), Redis(c, answer), Find(c, true), Insert(c, true), Reread(c, true), Reclaim(c, true)],
           s1, s2, s3, s4, s5, s6);
    AloneUpToFind(s, c, answer);
    AloneUpToReread(s3, s, c);
    AloneUpToReclaim(s5, s, c, key);
  }

  lemma RunSix(s: Sys, e: seq<Event>, s1: Sys, s2: Sys, s3: Sys, s4: Sys, s5: Sys, s6: Sys)
    requires |e| == 6
    requires s1 == Step(s, e[0]) && s2 == Step(s1, e[1]) && s3 == Step(s2, e[2])
    requires s4 == Step(s3, e[3]) && s5 == Step(s4, e[4]) && s6 == Step(s5, e[5])
    ensures Run(s, e) == s6
  {
    assert Run(s5, e[5..]) == s6;
    assert Run(s4, e[4..]) == s6 by { assert e[4..][1..] == e[5..]; }
    assert Run(s3, e[3..]) == s6 by { assert e[3..][1..] == e[4..]; }
    assert Run(s2, e[2..]) == s6 by { assert e[2..][1..] == e[3..]; }
    assert Run(s1, e[1..]) == s6 by { assert e[1..][1..] == e[2..]; }
  }

  /** A claim is still running when the sweep fails its row and a second caller arrives. */
  function SweptWhileRunning(): Sys {
    var late := IN_FLIGHT_TIMEOUT_MS + 1;
    Sys(Some(Swept(NewRow(0, 0), late)), 1, map[0 := Claimed(Some(0), 0), 1 := AtRedis], late, 0, 0, 0, None, 1)
  }

  lemma SlowClaimIsSwept()
    ensures Run(Init(0), [Arrive(0), Redis(0, Fresh), Insert(0, true), Tick(IN_FLIGHT_TIMEOUT_MS + 1), Sweep, Arrive(1)])
         == SweptWhileRunning()
  {
    var e := [Arrive(0), Redis(0, Fresh), Insert(0, true), Tick(IN_FLIGHT_TIMEOUT_MS + 1), Sweep, Arrive(1)];
    var s1 := At(Init(0), 0, AtRedis);
    var s2 := At(s1, 0, AtInsert);
    var s3 := At(s2, 0, Claimed(Some(0), 0)).(row := Some(NewRow(0, 0)), nextId := 1);
    var s4 := s3.(now := IN_FLIGHT_TIMEOUT_MS + 1);
    var s5 := s4.(row := Some(Swept(NewRow(0, 0), IN_FLIGHT_TIMEOUT_MS + 1)), hazards := 1);
    RunSix(Init(0), e, s1, s2, s3, s4, s5, SweptWhileRunning());
  }

  lemma RetryOfSweptAlsoSucceeds(r: ToolResult)
    requires r.success
    ensures var events := [Redis(1, Duplicate), Find(1, true), Reclaim(1, true), Execute(1, r), Execute(0, r), Arrive(0)];
            var s := Run(SweptWhileRunning(), events);
            s.successes == 2 && s.hazards == 1
  {
    var b := [Redis(1, Duplicate), Find(1, true), Reclaim(1, true), Execute(1, r), Execute(0, r), Arrive(0)];
    var s := SweptWhileRunning();
    var s1 := At(s, 1, AtFind);
    var s2 := At(s1, 1, AtReclaim(0));
    var s3 := At(s2, 1, Claimed(Some(0), s.now)).(row := Some(Reclaimed(s.row.value, s.now)), holder := 1);
    var s4 := At(s3, 1, Executed(Some(0), s.now, r)).(successes := 1, first := Some(r));
    var s5 := At(s4, 0, Executed(Some(0), 0, r)).(successes := 2);
    RunSix(s, b, s1, s2, s3, s4, s5, s5);
  }

  /** The bound is reached: the swept execution and its retry both succeed. */
  lemma SlowExecutionRunsTwice(r: ToolResult)
    requires r.success
    ensures exists events :: Run(Init(0), events).successes == 2 && Run(Init(0), events).hazards == 1
  {
    var a := [Arrive(0), Redis(0, Fresh), Insert(0, true), Tick(IN_FLIGHT_TIMEOUT_MS + 1), Sweep, Arrive(1)];
    var b := [Redis(1, Duplicate), Find(1, true), Reclaim(1, true), Execute(1, r), Execute(0, r), Arrive(0)];
    hide *;
    SlowClaimIsSwept();
    RetryOfSweptAlsoSucceeds(r);
    RunSplit(Init(0), a, b);
    assert Run(Init(0), a + b).successes == 2;
  }
}
