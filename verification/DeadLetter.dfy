/**
 * Retry accounting of the dead-letter replay queue
 * (src/ops/dead-letter-replay.service.ts): a Redis stream read through a
 * consumer group, a MySQL table the entries are written back to, and the
 * service's attempt counters and due times.
 *
 * Entries are numbered in the order they were added. XADD, the two XREADGROUP
 * calls and XACK are atomic; acknowledgements succeed, the stream is not
 * trimmed, the process is not restarted and rounds do not overlap.
 */
module DeadLetter {
  import opened Bits
  import opened Common

  datatype Config = Config(maxAttempts: nat, baseMs: nat, capMs: nat, batch: nat)

  /** One INSERT into the dead-letter table. */
  datatype Try = Try(id: nat, startedAt: int, endedAt: int, ok: bool)

  /** An entry given up on; `stored` when it also reached the terminal stream (it is always logged). */
  datatype GivenUp = GivenUp(id: nat, stored: bool)

  datatype State = State(
    added: nat,
    delivered: nat,
    pending: seq<nat>,
    attempts: map<nat, nat>,
    dueAt: map<nat, int>,
    tries: seq<Try>,
    givenUp: seq<GivenUp>)

  /** What clock, database and terminal stream do while one entry is processed. */
  datatype Outcome = Outcome(now: int, endedAt: int, insertOk: bool, storeOk: bool)

  datatype Verdict = GiveUp | Defer | Replayed | Failed

  datatype Stats = Stats(replayed: nat, failed: nat, deferred: nat, terminal: nat)

  const Empty := State(0, 0, [], map[], map[], [], [])

  function BackoffMs(attempts: nat, cfg: Config): nat {
    Min(cfg.baseMs * Pow2(Max(0, attempts - 1)), cfg.capMs)
  }

  function AttemptsOf(s: State, id: nat): nat {
    if id in s.attempts then s.attempts[id] else 0
  }

  function DueAt(s: State, id: nat): int {
    if id in s.dueAt then s.dueAt[id] else 0
  }

  /** The attempt limit is looked at before the backoff. */
  function Judge(s: State, id: nat, o: Outcome, cfg: Config): Verdict {
    if AttemptsOf(s, id) + 1 > cfg.maxAttempts then GiveUp
    else if o.now < DueAt(s, id) then Defer
    else if o.insertOk then Replayed
    else Failed
  }

  function Without(ids: seq<nat>, id: nat): (r: seq<nat>)
    ensures forall x :: x in r <==> x in ids && x != id
  {
    if ids == [] then [] else (if ids[0] == id then [] else [ids[0]]) + Without(ids[1..], id)
  }

  function Acked(s: State, id: nat): State {
    s.(pending := Without(s.pending, id), attempts := s.attempts - {id}, dueAt := s.dueAt - {id})
  }

  function Processed(s: State, id: nat, o: Outcome, cfg: Config): State {
    match Judge(s, id, o, cfg)
    case GiveUp => Acked(s, id).(givenUp := s.givenUp + [GivenUp(id, o.storeOk)])
    case Defer => s
    case Replayed => Acked(s, id).(tries := s.tries + [Try(id, o.now, o.endedAt, true)])
    case Failed =>
      var n := AttemptsOf(s, id) + 1;
      s.(attempts := s.attempts[id := n],
         dueAt := s.dueAt[id := o.endedAt + BackoffMs(n, cfg)],
         tries := s.tries + [Try(id, o.now, o.endedAt, false)])
  }

  // ---- a round --------------------------------------------------------------

  /** COUNT; zero means no limit. */
  function Limit(batch: nat, n: nat): (m: nat)
    ensures m <= n
  {
    if batch == 0 then n else Min(batch, n)
  }

  function Range(lo: nat, n: nat): (r: seq<nat>)
    ensures |r| == n && forall i | 0 <= i < n :: r[i] == lo + i
  {
    seq(n, i requires 0 <= i < n => lo + i)
  }

  function Fresh(s: State, batch: nat): seq<nat>
    requires s.delivered <= s.added
  {
    Range(s.delivered, Limit(batch, s.added - s.delivered))
  }

  /** Pending entries first, then new ones. */
  function ToRead(s: State, batch: nat): seq<nat>
    requires s.delivered <= s.added
  {
    s.pending[..Limit(batch, |s.pending|)] + Fresh(s, batch)
  }

  /** Reading new entries moves the group's cursor and makes them pending. */
  function Delivered(s: State, batch: nat): State
    requires s.delivered <= s.added
  {
    s.(delivered := s.delivered + |Fresh(s, batch)|, pending := s.pending + Fresh(s, batch))
  }

  /** One outcome per entry; a round that is cut short processes fewer. */
  function ProcessAll(s: State, ids: seq<nat>, env: seq<Outcome>, cfg: Config): State
    decreases |ids|
  {
    if ids == [] || env == [] then s
    else ProcessAll(Processed(s, ids[0], env[0], cfg), ids[1..], env[1..], cfg)
  }

  lemma ProcessAllDone(s: State, ids: seq<nat>, env: seq<Outcome>, cfg: Config)
    requires ids == []
    ensures ProcessAll(s, ids, env, cfg) == s
  {
  }

  lemma ProcessAllStep(s: State, ids: seq<nat>, env: seq<Outcome>, i: nat, cfg: Config)
    requires i < |ids| == |env|
    ensures ProcessAll(s, ids[i..], env[i..], cfg)
         == ProcessAll(Processed(s, ids[i], env[i], cfg), ids[i + 1..], env[i + 1..], cfg)
  {
    assert ids[i..][1..] == ids[i + 1..] && env[i..][1..] == env[i + 1..];
    hide Processed;
  }

  lemma ProcessedCounts(s: State, id: nat, o: Outcome, cfg: Config)
    ensures var j, t := Judge(s, id, o, cfg), Processed(s, id, o, cfg);
            && |t.tries| == |s.tries| + (if j == Replayed || j == Failed then 1 else 0)
            && |t.givenUp| == |s.givenUp| + (if j == GiveUp then 1 else 0)
  {
  }

  class DeadLetterReplayService {
    var attempts: map<nat, nat>
    var dueAt: map<nat, int>
    // the stream, its consumer group, the table and the give-up log
    var added: nat
    var delivered: nat
    var pending: seq<nat>
    var tries: seq<Try>
    var givenUp: seq<GivenUp>
    // the service's own counts of what was offered to the stream
    var enqueued: nat
    var enqueueFailed: nat

    ghost function View(): State
      reads this
    {
      State(added, delivered, pending, attempts, dueAt, tries, givenUp)
    }

    constructor ()
      ensures View() == Empty
    {
      attempts, dueAt, enqueued, enqueueFailed := map[], map[], 0, 0;
      added, delivered, pending, tries, givenUp := 0, 0, [], [], [];
    }

    /** XADD; when it fails the entry is only counted, nothing is thrown. */
    method Enqueue(up: bool) returns (ok: bool)
      modifies this
      ensures ok == up
      ensures View() == if up then old(View()).(added := old(added) + 1) else old(View())
      ensures enqueued == old(enqueued) + (if up then 1 else 0)
      ensures enqueueFailed == old(enqueueFailed) + (if up then 0 else 1)
    {
      if !up {
        enqueueFailed := enqueueFailed + 1;
        return false;
      }
      added := added + 1;
      enqueued := enqueued + 1;
      return true;
    }

    method ProcessEntry(id: nat, o: Outcome, cfg: Config, round: Stats) returns (after: Stats)
      modifies this
      ensures View() == Processed(old(View()), id, o, cfg)
      ensures after == match Judge(old(View()), id, o, cfg)
                       case GiveUp => round.(terminal := round.terminal + 1)
                       case Defer => round.(deferred := round.deferred + 1)
                       case Replayed => round.(replayed := round.replayed + 1)
                       case Failed => round.(failed := round.failed + 1)
    {
      var tried := (if id in attempts then attempts[id] else 0) + 1;
      if tried > cfg.maxAttempts {
        givenUp := givenUp + [GivenUp(id, o.storeOk)];
        Ack(id);
        return round.(terminal := round.terminal + 1);
      }
      var due := if id in dueAt then dueAt[id] else 0;
      if o.now < due {
        return round.(deferred := round.deferred + 1);
      }
      if o.insertOk {
        tries := tries + [Try(id, o.now, o.endedAt, true)];
        Ack(id);
        return round.(replayed := round.replayed + 1);
      }
      tries := tries + [Try(id, o.now, o.endedAt, false)];
      attempts := attempts[id := tried];
      dueAt := dueAt[id := o.endedAt + BackoffMs(tried, cfg)];
      return round.(failed := round.failed + 1);
    }

    /** XACK, then forget the entry's counters. */
    method Ack(id: nat)
      modifies this
      ensures View() == Acked(old(View()), id)
    {
      pending := Without(pending, id);
      attempts := attempts - {id};
      dueAt := dueAt - {id};
    }

    /** One scheduled round; every entry read is counted in exactly one of the four figures. */
    method Consume(env: seq<Outcome>, cfg: Config) returns (round: Stats)
      requires delivered <= added && |env| == |ToRead(View(), cfg.batch)|
      modifies this
      ensures var s := old(View());
              View() == ProcessAll(Delivered(s, cfg.batch), ToRead(s, cfg.batch), env, cfg)
      ensures round.replayed + round.failed + round.deferred + round.terminal == |env|
      ensures |tries| == |old(tries)| + round.replayed + round.failed
      ensures |givenUp| == |old(givenUp)| + round.terminal
    {
      hide ProcessAll, Processed, Judge;
      var ids := pending[..Limit(cfg.batch, |pending|)];
      var arrived := Range(delivered, Limit(cfg.batch, added - delivered));
      delivered := delivered + |arrived|;
      pending := pending + arrived;
      ids := ids + arrived;
      round := Stats(0, 0, 0, 0);
      ghost var start := View();
      for i := 0 to |ids|
        invariant ProcessAll(View(), ids[i..], env[i..], cfg) == ProcessAll(start, ids, env, cfg)
        invariant round.replayed + round.failed + round.deferred + round.terminal == i
        invariant |tries| == |old(tries)| + round.replayed + round.failed
        invariant |givenUp| == |old(givenUp)| + round.terminal
      {
        ProcessAllStep(View(), ids, env, i, cfg);
        ProcessedCounts(View(), ids[i], env[i], cfg);
        round := ProcessEntry(ids[i], env[i], cfg, round);
      }
      ProcessAllDone(View(), ids[|ids|..], env[|ids|..], cfg);
    }
  }

  // ---- one entry's share of the state ----------------------------------------

  function TriesOf(tries: seq<Try>, id: nat): seq<Try> {
    if tries == [] then []
    else TriesOf(tries[..|tries| - 1], id) + if tries[|tries| - 1].id == id then [tries[|tries| - 1]] else []
  }

  function GivenUpOf(list: seq<GivenUp>, id: nat): nat {
    if list == [] then 0
    else GivenUpOf(list[..|list| - 1], id) + if list[|list| - 1].id == id then 1 else 0
  }

  datatype Slice = Slice(delivered: bool, pending: bool, attempts: nat, due: int, tries: seq<Try>, givenUp: nat)

  function SliceOf(s: State, id: nat): Slice {
    Slice(id < s.delivered, id in s.pending, AttemptsOf(s, id), DueAt(s, id),
          TriesOf(s.tries, id), GivenUpOf(s.givenUp, id))
  }

  /** What processing does to the share of the entry processed. */
  function SliceProcessed(sl: Slice, id: nat, o: Outcome, cfg: Config): Slice {
    if sl.attempts + 1 > cfg.maxAttempts then
      sl.(pending := false, attempts := 0, due := 0, givenUp := sl.givenUp + 1)
    else if o.now < sl.due then sl
    else if o.insertOk then
      sl.(pending := false, attempts := 0, due := 0, tries := sl.tries + [Try(id, o.now, o.endedAt, true)])
    else
      sl.(attempts := sl.attempts + 1, due := o.endedAt + BackoffMs(sl.attempts + 1, cfg),
          tries := sl.tries + [Try(id, o.now, o.endedAt, false)])
  }

  lemma ProcessedActsOnOneSlice(s: State, id: nat, o: Outcome, cfg: Config, other: nat)
    ensures SliceOf(Processed(s, id, o, cfg), other)
         == if other == id then SliceProcessed(SliceOf(s, id), id, o, cfg) else SliceOf(s, other)
  {
    var t := Processed(s, id, o, cfg);
    TriesSnoc(s.tries, Try(id, o.now, o.endedAt, true), other);
    TriesSnoc(s.tries, Try(id, o.now, o.endedAt, false), other);
    GivenUpSnoc(s.givenUp, GivenUp(id, o.storeOk), other);
    hide TriesOf, GivenUpOf, BackoffMs;
  }

  lemma TriesSnoc(tries: seq<Try>, t: Try, id: nat)
    ensures TriesOf(tries + [t], id) == if t.id == id then TriesOf(tries, id) + [t] else TriesOf(tries, id)
  {
    assert (tries + [t])[..|tries|] == tries;
    assert TriesOf(tries, id) + [] == TriesOf(tries, id);
  }

  lemma GivenUpSnoc(list: seq<GivenUp>, g: GivenUp, id: nat)
    ensures GivenUpOf(list + [g], id) == GivenUpOf(list, id) + if g.id == id then 1 else 0
  {
    assert (list + [g])[..|list|] == list;
  }

  predicate AllFailed(tries: seq<Try>) {
    forall k | 0 <= k < |tries| :: !tries[k].ok
  }

  /** Try k+1 starts at least the backoff of attempt k after try k ended. */
  predicate Spaced(tries: seq<Try>, cfg: Config) {
    forall k | 0 < k < |tries| :: tries[k].startedAt >= tries[k - 1].endedAt + BackoffMs(k, cfg)
  }

  predicate Untouched(sl: Slice) {
    !sl.delivered && !sl.pending && sl.tries == [] && sl.givenUp == 0
  }

  predicate Waiting(sl: Slice, cfg: Config) {
    sl.delivered && sl.pending && AllFailed(sl.tries) && |sl.tries| <= cfg.maxAttempts && sl.givenUp == 0
  }

  predicate PersistedOnce(sl: Slice, cfg: Config) {
    && sl.delivered && !sl.pending && sl.givenUp == 0
    && 1 <= |sl.tries| <= cfg.maxAttempts
    && AllFailed(sl.tries[..|sl.tries| - 1]) && sl.tries[|sl.tries| - 1].ok
  }

  predicate Abandoned(sl: Slice, cfg: Config) {
    && sl.delivered && !sl.pending && sl.givenUp == 1
    && |sl.tries| == cfg.maxAttempts && AllFailed(sl.tries)
  }

  /** The service's own counters agree with what happened to the entry. */
  predicate CountersAgree(sl: Slice, cfg: Config) {
    if sl.pending then
      && sl.attempts == |sl.tries|
      && sl.due == if sl.tries == [] then 0 else sl.tries[|sl.tries| - 1].endedAt + BackoffMs(|sl.tries|, cfg)
    else sl.attempts == 0 && sl.due == 0
  }

  predicate Fine(sl: Slice, cfg: Config) {
    && (Untouched(sl) || Waiting(sl, cfg) || PersistedOnce(sl, cfg) || Abandoned(sl, cfg))
    && Spaced(sl.tries, cfg)
    && CountersAgree(sl, cfg)
  }

  lemma SliceStaysFine(sl: Slice, id: nat, o: Outcome, cfg: Config)
    requires Fine(sl, cfg) && sl.pending
    ensures Fine(SliceProcessed(sl, id, o, cfg), cfg)
  {
    var after := SliceProcessed(sl, id, o, cfg);
    if |after.tries| == |sl.tries| + 1 {
      assert after.tries[..|after.tries| - 1] == sl.tries;
      assert forall k | 0 <= k < |sl.tries| :: after.tries[k] == sl.tries[k];
    }
  }

  predicate Ascending(ids: seq<nat>) {
    forall i, j | 0 <= i < j < |ids| :: ids[i] < ids[j]
  }

  ghost predicate Inv(s: State, cfg: Config) {
    && s.delivered <= s.added
    && Ascending(s.pending)
    && (forall i | 0 <= i < |s.pending| :: s.pending[i] < s.delivered)
    && forall id: nat :: Fine(SliceOf(s, id), cfg)
  }

  lemma {:induction false} WithoutAscends(ids: seq<nat>, id: nat)
    requires Ascending(ids)
    ensures Ascending(Without(ids, id))
  {
    if ids != [] {
      var rest := Without(ids[1..], id);
      WithoutAscends(ids[1..], id);
      forall k | 0 <= k < |rest| ensures ids[0] < rest[k] {
        assert rest[k] in ids[1..];
      }
    }
  }

  lemma ProcessedKeepsInv(s: State, id: nat, o: Outcome, cfg: Config)
    requires Inv(s, cfg) && id in s.pending
    ensures Inv(Processed(s, id, o, cfg), cfg)
  {
    var t := Processed(s, id, o, cfg);
    WithoutAscends(s.pending, id);
    forall i | 0 <= i < |t.pending| ensures t.pending[i] < t.delivered {
      assert t.pending[i] in s.pending;
    }
    forall other: nat ensures Fine(SliceOf(t, other), cfg) {
      ProcessedActsOnOneSlice(s, id, o, cfg, other);
      assert Fine(SliceOf(s, other), cfg);
      hide Fine, SliceOf, SliceProcessed, Processed;
      if other == id {
        PendingShows(s, id);
        SliceStaysFine(SliceOf(s, id), id, o, cfg);
      }
    }
  }

  lemma PendingShows(s: State, id: nat)
    ensures SliceOf(s, id).pending == (id in s.pending)
  {
  }

  lemma ProcessedKeepsPending(s: State, id: nat, o: Outcome, cfg: Config, other: nat)
    requires other != id && other in s.pending
    ensures other in Processed(s, id, o, cfg).pending
  {
  }

  predicate Distinct(ids: seq<nat>) {
    forall i, j | 0 <= i < j < |ids| :: ids[i] != ids[j]
  }

  lemma {:induction false} ProcessAllKeepsInv(s: State, ids: seq<nat>, env: seq<Outcome>, cfg: Config)
    requires Inv(s, cfg) && Distinct(ids)
    requires forall i | 0 <= i < |ids| :: ids[i] in s.pending
    ensures Inv(ProcessAll(s, ids, env, cfg), cfg)
    decreases |ids|
  {
    if ids != [] && env != [] {
      ProcessedKeepsInv(s, ids[0], env[0], cfg);
      forall i | 0 <= i < |ids[1..]| ensures ids[1..][i] in Processed(s, ids[0], env[0], cfg).pending {
        assert ids[1..][i] == ids[i + 1];
        ProcessedKeepsPending(s, ids[0], env[0], cfg, ids[i + 1]);
      }
      hide Inv, Processed;
      ProcessAllKeepsInv(Processed(s, ids[0], env[0], cfg), ids[1..], env[1..], cfg);
    }
  }

  lemma DeliveredKeepsInv(s: State, cfg: Config)
    requires Inv(s, cfg)
    ensures Inv(Delivered(s, cfg.batch), cfg)
    ensures Distinct(ToRead(s, cfg.batch))
    ensures forall i | 0 <= i < |ToRead(s, cfg.batch)| :: ToRead(s, cfg.batch)[i] in Delivered(s, cfg.batch).pending
  {
    var t := Delivered(s, cfg.batch);
    forall id: nat ensures Fine(SliceOf(t, id), cfg) {
      assert Fine(SliceOf(s, id), cfg);
      assert id in Fresh(s, cfg.batch) <==> s.delivered <= id < t.delivered by {
        if s.delivered <= id < t.delivered {
          assert Fresh(s, cfg.batch)[id - s.delivered] == id;
        }
      }
    }
  }

  // ---- runs ---------------------------------------------------------------------

  datatype Event = Add | Round(env: seq<Outcome>)

  function Step(s: State, e: Event, cfg: Config): State {
    if e.Add? then s.(added := s.added + 1)
    else if s.delivered > s.added then s
    else ProcessAll(Delivered(s, cfg.batch), ToRead(s, cfg.batch), e.env, cfg)
  }

  function Run(s: State, events: seq<Event>, cfg: Config): State
    decreases |events|
  {
    if events == [] then s else Run(Step(s, events[0], cfg), events[1..], cfg)
  }

  /** A round reads and processes as the service does, whether or not anything new has arrived. */
  lemma RoundProcesses(s: State, env: seq<Outcome>, cfg: Config)
    requires s.delivered <= s.added
    ensures Step(s, Round(env), cfg) == ProcessAll(Delivered(s, cfg.batch), ToRead(s, cfg.batch), env, cfg)
    ensures forall i | 0 <= i < Limit(cfg.batch, |s.pending|) :: ToRead(s, cfg.batch)[i] == s.pending[i]
    ensures Limit(cfg.batch, |s.pending|) == if cfg.batch == 0 || |s.pending| <= cfg.batch then |s.pending| else cfg.batch
    ensures var known, waiting := Limit(cfg.batch, |s.pending|), s.added - s.delivered;
            && |ToRead(s, cfg.batch)| == known + (if cfg.batch == 0 || waiting <= cfg.batch then waiting else cfg.batch)
            && forall i | known <= i < |ToRead(s, cfg.batch)| :: ToRead(s, cfg.batch)[i] == s.delivered + i - known
  {
    hide ProcessAll;
  }

  lemma StepKeepsInv(s: State, e: Event, cfg: Config)
    requires Inv(s, cfg)
    ensures Inv(Step(s, e, cfg), cfg)
  {
    if e.Add? {
      forall id: nat ensures Fine(SliceOf(Step(s, e, cfg), id), cfg) {
        assert SliceOf(Step(s, e, cfg), id) == SliceOf(s, id);
      }
    } else {
      DeliveredKeepsInv(s, cfg);
      ProcessAllKeepsInv(Delivered(s, cfg.batch), ToRead(s, cfg.batch), e.env, cfg);
    }
  }

  lemma {:induction false} RunKeepsInv(s: State, events: seq<Event>, cfg: Config)
    requires Inv(s, cfg)
    ensures Inv(Run(s, events, cfg), cfg)
    decreases |events|
  {
    if events != [] {
      StepKeepsInv(s, events[0], cfg);
      RunKeepsInv(Step(s, events[0], cfg), events[1..], cfg);
    }
  }

  function One(b: bool): nat {
    if b then 1 else 0
  }

  /**
   * After any run every entry is in exactly one place: not delivered yet,
   * pending with only failed tries, written to the table by exactly one try,
   * or given up once after exactly maxAttempts failed tries. Its tries are
   * spaced by the backoff.
   */
  lemma EveryEntryIsAccountedFor(events: seq<Event>, cfg: Config, id: nat)
    ensures var s := Run(Empty, events, cfg);
            var sl := SliceOf(s, id);
            && One(Untouched(sl)) + One(Waiting(sl, cfg)) + One(PersistedOnce(sl, cfg)) + One(Abandoned(sl, cfg)) == 1
            && Spaced(sl.tries, cfg)
            && (id >= s.added ==> Untouched(sl))
  {
    assert Inv(Empty, cfg) by {
      assert forall id: nat :: Fine(SliceOf(Empty, id), cfg);
    }
    RunKeepsInv(Empty, events, cfg);
    assert Fine(SliceOf(Run(Empty, events, cfg), id), cfg);
    hide Run;
  }

  /** How many more times the entry can be processed without being put off. */
  function Remaining(sl: Slice, cfg: Config): int {
    if !sl.delivered then cfg.maxAttempts + 1
    else if sl.pending then cfg.maxAttempts + 1 - |sl.tries|
    else 0
  }

  lemma SliceProgress(sl: Slice, id: nat, o: Outcome, cfg: Config)
    requires Fine(sl, cfg) && sl.pending
    ensures SliceProcessed(sl, id, o, cfg) != sl ==> 0 <= Remaining(SliceProcessed(sl, id, o, cfg), cfg) < Remaining(sl, cfg)
    ensures SliceProcessed(sl, id, o, cfg) == sl <==> sl.attempts + 1 <= cfg.maxAttempts && o.now < sl.due
  {
    hide AllFailed, BackoffMs;
  }

  /** Processing a pending entry either puts it off and changes nothing, or brings it closer to its end; no other entry moves. */
  lemma ProcessingMakesProgress(s: State, id: nat, o: Outcome, cfg: Config, other: nat)
    requires Inv(s, cfg) && id in s.pending
    ensures Judge(s, id, o, cfg) == Defer ==> Processed(s, id, o, cfg) == s
    ensures Judge(s, id, o, cfg) != Defer
            ==> 0 <= Remaining(SliceOf(Processed(s, id, o, cfg), id), cfg) < Remaining(SliceOf(s, id), cfg)
    ensures other != id ==> Remaining(SliceOf(Processed(s, id, o, cfg), other), cfg) == Remaining(SliceOf(s, other), cfg)
  {
    assert Fine(SliceOf(s, id), cfg);
    assert Judge(s, id, o, cfg) == Defer <==> AttemptsOf(s, id) + 1 <= cfg.maxAttempts && o.now < DueAt(s, id);
    assert Judge(s, id, o, cfg) == Defer ==> Processed(s, id, o, cfg) == s;
    hide Inv, Fine, Processed, SliceProcessed, Judge, Remaining, TriesOf, GivenUpOf, AttemptsOf, DueAt;
    ProcessedActsOnOneSlice(s, id, o, cfg, id);
    ProcessedActsOnOneSlice(s, id, o, cfg, other);
    SliceProgress(SliceOf(s, id), id, o, cfg);
  }

  /** The pause never shrinks from one attempt to the next and never exceeds the cap. */
  lemma BackoffGrows(n: nat, cfg: Config)
    ensures BackoffMs(1, cfg) == if cfg.baseMs <= cfg.capMs then cfg.baseMs else cfg.capMs
    ensures BackoffMs(n, cfg) <= BackoffMs(n + 1, cfg) <= cfg.capMs
    ensures n > 0 && BackoffMs(n + 1, cfg) < cfg.capMs ==> BackoffMs(n + 1, cfg) == 2 * BackoffMs(n, cfg)
  {
    if n > 0 {
      assert cfg.baseMs * Pow2(n) == 2 * (cfg.baseMs * Pow2(n - 1));
    }
  }

  /** Two rounds that read the same pending entry before either processes it write it to the table twice. */
  lemma OverlappingRoundsPersistTwice(cfg: Config, o: Outcome)
    requires cfg.maxAttempts > 0 && o.insertOk && o.now >= 0
    ensures var s := Delivered(Step(Empty, Add, cfg), cfg.batch);
            && ToRead(s, cfg.batch) == [0]
            && SliceOf(Processed(Processed(s, 0, o, cfg), 0, o, cfg), 0).tries
               == [Try(0, o.now, o.endedAt, true), Try(0, o.now, o.endedAt, true)]
  {
    var s := Delivered(Step(Empty, Add, cfg), cfg.batch);
    assert s == State(1, 1, [0], map[], map[], [], []);
    assert ToRead(s, cfg.batch) == [0];
    assert SliceOf(s, 0) == Slice(true, true, 0, 0, [], 0);
    hide SliceOf, Processed, Delivered, ToRead, Step, SliceProcessed;
    ProcessedActsOnOneSlice(s, 0, o, cfg, 0);
    ProcessedActsOnOneSlice(Processed(s, 0, o, cfg), 0, o, cfg, 0);
    SliceIsPersisted(SliceOf(s, 0), 0, o, cfg);
    SliceIsPersisted(SliceOf(Processed(s, 0, o, cfg), 0), 0, o, cfg);
  }

  lemma SliceIsPersisted(sl: Slice, id: nat, o: Outcome, cfg: Config)
    requires cfg.maxAttempts > 0 && o.insertOk && o.now >= 0 && sl.attempts == 0 && sl.due == 0
    ensures var after := SliceProcessed(sl, id, o, cfg);
            after.tries == sl.tries + [Try(id, o.now, o.endedAt, true)] && after.attempts == 0 && after.due == 0
  {
  }
}
