/**
 * Appending to a shared conversation history with WATCH / GET / MULTI / EXEC
 * (src/brain/memory-manager.service.ts).
 */
module History {
  import opened Common

  const MAX_MESSAGES := 20
  const MAX_RETRIES := 3

  datatype Message = Message(role: string, content: string)

  /** What GET can find under the key. */
  datatype Stored = Absent | Messages(list: seq<Message>) | Unreadable

  function Last20(s: seq<Message>): (r: seq<Message>) {
    if |s| > MAX_MESSAGES then s[|s| - MAX_MESSAGES..] else s
  }

  /** A missing, unparsable or non-array value counts as an empty history. */
  function Existing(v: Stored): seq<Message> {
    if v.Messages? then v.list else []
  }

  function Appended(v: Stored, added: seq<Message>): Stored {
    Messages(Last20(Existing(v) + added))
  }

  /** Truncating early loses nothing that truncating late would keep. */
  lemma TruncateOnce(a: seq<Message>, b: seq<Message>)
    ensures Last20(Last20(a) + b) == Last20(a + b)
  {
    if |a| > MAX_MESSAGES {
      var cut := |a| - MAX_MESSAGES;
      assert Last20(a) + b == (a + b)[cut..];
      if |Last20(a) + b| > MAX_MESSAGES {
        assert (a + b)[cut..][|b|..] == (a + b)[cut + |b|..];
      }
    }
  }

  // ---- one save, with whatever others do between its GET and its EXEC --------

  class WatchedKey {
    var value: Stored
    var version: nat

    constructor (value: Stored)
      ensures this.value == value && version == 0
    {
      this.value, version := value, 0;
    }

    method Put(v: Stored)
      modifies this
      ensures value == v && version == old(version) + 1
    {
      value, version := v, version + 1;
    }
  }

  datatype Outcome = Saved | GaveUp | Failed | Skipped

  datatype Trouble = Fine | BeforeExec | ReplyLost

  /** One attempt's surroundings: what another client stores between its GET and its EXEC, and what goes wrong. */
  datatype Turn = Turn(other: Option<Stored>, trouble: Trouble)

  /** Only a plain conflict is tried again. */
  predicate Conflict(t: Turn) {
    t.other.Some? && t.trouble == Fine
  }

  /** The first attempt that is not a plain conflict, or the number of attempts if there is none. */
  function LastAttempt(turns: nat -> Turn, from: nat): (k: nat)
    requires from <= MAX_RETRIES + 1
    ensures from <= k <= MAX_RETRIES + 1
    ensures forall i | from <= i < k :: Conflict(turns(i))
    ensures k <= MAX_RETRIES ==> !Conflict(turns(k))
    decreases MAX_RETRIES + 1 - from
  {
    if from > MAX_RETRIES || !Conflict(turns(from)) then from else LastAttempt(turns, from + 1)
  }

  /** What attempt k finds. */
  function FoundBy(value: Stored, turns: nat -> Turn, k: nat): Stored
    requires k > 0 ==> turns(k - 1).other.Some?
  {
    if k == 0 then value else turns(k - 1).other.value
  }

  /**
   * Without Redis nothing happens. Otherwise conflicts are retried; the first
   * attempt that nobody interferes with and nothing goes wrong with lands on
   * top of everything stored before it, one that throws ends the save - with
   * its write in place only if just the reply was lost - and after the last
   * conflict the save writes nothing at all.
   */
  method SaveHistory(available: bool, key: WatchedKey, added: seq<Message>, turns: nat -> Turn) returns (outcome: Outcome)
    modifies key
    ensures !available ==> outcome == Skipped && key.value == old(key.value)
    ensures available ==>
              var k := LastAttempt(turns, 0);
              var found := FoundBy(old(key.value), turns, k);
              if k > MAX_RETRIES then outcome == GaveUp && key.value == found
              else
                && outcome == (if turns(k).trouble == Fine then Saved else Failed)
                && key.value == (if turns(k).other.Some? then turns(k).other.value
                                 else if turns(k).trouble == BeforeExec then found
                                 else Appended(found, added))
  {
    if !available {
      return Skipped;
    }
    var attempt := 0;
    while attempt <= MAX_RETRIES
      invariant 0 <= attempt <= MAX_RETRIES + 1
      invariant forall i | 0 <= i < attempt :: Conflict(turns(i))
      invariant key.value == FoundBy(old(key.value), turns, attempt)
      invariant LastAttempt(turns, 0) == LastAttempt(turns, attempt)
      decreases MAX_RETRIES + 1 - attempt
    {
      var turn := turns(attempt);
      var watched := key.version;
      var raw := key.value;
      var combined := Existing(raw) + added;
      var truncated := if |combined| > MAX_MESSAGES then combined[|combined| - MAX_MESSAGES..] else combined;
      if turn.other.Some? {
        key.Put(turn.other.value);
      }
      if turn.trouble == BeforeExec {
        return Failed;
      }
      var committed := key.version == watched;
      if committed {
        key.Put(Messages(truncated));
      }
      if turn.trouble == ReplyLost {
        return Failed;
      }
      if committed {
        return Saved;
      }
      attempt := attempt + 1;
    }
    return GaveUp;
  }

  // ---- any number of saves, clears and expiries, interleaved -------------------

  type CallerId = nat

  datatype Pc =
    | Idle(added: seq<Message>, attempt: nat)
    | Watching(added: seq<Message>, attempt: nat, version: nat)
    | HasRead(added: seq<Message>, attempt: nat, version: nat, raw: Stored)
    | Committed
    | Abandoned
    | Broken

  datatype Event =
    | Begin(c: CallerId, added: seq<Message>)
    | Watch(c: CallerId)
    | Get(c: CallerId)
    | Exec(c: CallerId)
    | ExecReplyLost(c: CallerId)
    | Fail(c: CallerId)
    | Clear
    | Expire

  datatype Commit = Commit(c: CallerId, added: seq<Message>)

  /** `base` and `log` are bookkeeping: the history the key started from, and the commits since it was last dropped. */
  datatype Sys = Sys(
    value: Stored,
    version: nat,
    callers: map<CallerId, Pc>,
    arrived: map<CallerId, nat>,
    base: seq<Message>,
    log: seq<Commit>)

  function Init(value: Stored): Sys {
    Sys(value, 0, map[], map[], Existing(value), [])
  }

  function At(s: Sys, c: CallerId, pc: Pc): Sys {
    s.(callers := s.callers[c := pc])
  }

  function Dropped(s: Sys): Sys {
    s.(value := Absent, version := s.version + 1, base := [], log := [])
  }

  function StepExec(s: Sys, c: CallerId, pc: Pc, reply: bool): Sys
    requires pc.HasRead?
  {
    if s.version == pc.version then
      At(s, c, if reply then Committed else Broken)
      .(value := Appended(pc.raw, pc.added), version := s.version + 1, log := s.log + [Commit(c, pc.added)])
    else if !reply then At(s, c, Broken)
    else At(s, c, if pc.attempt < MAX_RETRIES then Idle(pc.added, pc.attempt + 1) else Abandoned)
  }

  function Step(s: Sys, e: Event): Sys {
    match e
    case Begin(c, added) =>
      if c in s.callers then s else At(s, c, Idle(added, 0)).(arrived := s.arrived[c := s.version])
    case Clear => Dropped(s)
    case Expire => Dropped(s)
    case _ =>
      if e.c !in s.callers then s else
      var pc := s.callers[e.c];
      match e
      case Watch(c) => if pc.Idle? then At(s, c, Watching(pc.added, pc.attempt, s.version)) else s
      case Get(c) => if pc.Watching? then At(s, c, HasRead(pc.added, pc.attempt, pc.version, s.value)) else s
      case Exec(c) => if pc.HasRead? then StepExec(s, c, pc, true) else s
      case ExecReplyLost(c) => if pc.HasRead? then StepExec(s, c, pc, false) else s
      case Fail(c) => if pc.Idle? || pc.Watching? || pc.HasRead? then At(s, c, Broken) else s
      case _ => s
  }

  function Run(s: Sys, events: seq<Event>): Sys
    decreases |events|
  {
    if events == [] then s else Run(Step(s, events[0]), events[1..])
  }

  function Concat(log: seq<Commit>): seq<Message> {
    if log == [] then [] else Concat(log[..|log| - 1]) + log[|log| - 1].added
  }

  /** An unchanged version means an unchanged value, and every retry was paid for by somebody's write. */
  predicate PcInv(s: Sys, c: CallerId, pc: Pc) {
    && c in s.arrived
    && match pc
       case Idle(_, attempt) => attempt <= MAX_RETRIES && s.arrived[c] + attempt <= s.version
       case Watching(_, attempt, version) =>
         attempt <= MAX_RETRIES && s.arrived[c] + attempt <= version <= s.version
       case HasRead(_, attempt, version, raw) =>
         && attempt <= MAX_RETRIES && s.arrived[c] + attempt <= version <= s.version
         && (version == s.version ==> raw == s.value)
       case Abandoned => s.arrived[c] + MAX_RETRIES + 1 <= s.version
       case _ => true
  }

  predicate Finished(s: Sys, c: CallerId) {
    c in s.callers && (s.callers[c].Committed? || s.callers[c].Broken?)
  }

  predicate Linearised(s: Sys) {
    && (s.log != [] ==> s.value == Messages(Last20(s.base + Concat(s.log))))
    && (s.log == [] ==> Existing(s.value) == s.base)
    && (forall i | 0 <= i < |s.log| :: Finished(s, s.log[i].c))
    && (forall i, j | 0 <= i < j < |s.log| :: s.log[i].c != s.log[j].c)
  }

  predicate Inv(s: Sys) {
    Linearised(s) && forall c | c in s.callers :: PcInv(s, c, s.callers[c])
  }

  lemma CommitExtendsLog(s: Sys, added: seq<Message>, c: CallerId)
    requires Linearised(s)
    ensures Appended(s.value, added) == Messages(Last20(s.base + Concat(s.log + [Commit(c, added)])))
  {
    var log := s.log + [Commit(c, added)];
    assert log[..|s.log|] == s.log;
    assert s.base + Concat(log) == s.base + Concat(s.log) + added;
    if s.log == [] {
      assert s.base + Concat(s.log) == s.base;
    } else {
      TruncateOnce(s.base + Concat(s.log), added);
    }
  }

  /** Moving one caller, with the store and the log as they are. */
  lemma MoveKeepsInv(s: Sys, c: CallerId, pc: Pc)
    requires Inv(s) && PcInv(s, c, pc)
    requires Finished(s, c) ==> pc == s.callers[c]
    ensures Inv(At(s, c, pc))
  {
    hide Concat, Last20, Existing;
    var s' := At(s, c, pc);
    assert forall d | d in s'.callers && d != c :: s'.callers[d] == s.callers[d];
    forall i | 0 <= i < |s'.log| ensures Finished(s', s'.log[i].c) {
      assert Finished(s, s.log[i].c);
    }
  }

  lemma CommitKeepsInv(s: Sys, c: CallerId, reply: bool)
    requires Inv(s) && c in s.callers && s.callers[c].HasRead? && s.version == s.callers[c].version
    ensures Inv(StepExec(s, c, s.callers[c], reply))
  {
    var pc := s.callers[c];
    var s' := StepExec(s, c, pc, reply);
    assert PcInv(s, c, pc);
    CommitExtendsLog(s, pc.added, c);
    hide Concat, Last20, Existing, Appended;
    forall i | 0 <= i < |s'.log|
      ensures Finished(s', s'.log[i].c) && (i < |s.log| ==> s'.log[i].c != c)
    {
      if i < |s.log| {
        assert Finished(s, s.log[i].c);
      }
    }
    forall d | d in s'.callers ensures PcInv(s', d, s'.callers[d]) {
      assert d != c ==> PcInv(s, d, s.callers[d]);
    }
  }

  lemma ExecKeepsInv(s: Sys, c: CallerId, reply: bool)
    requires Inv(s) && c in s.callers && s.callers[c].HasRead?
    ensures Inv(StepExec(s, c, s.callers[c], reply))
  {
    assert PcInv(s, c, s.callers[c]);
    if s.version == s.callers[c].version {
      CommitKeepsInv(s, c, reply);
    } else {
      MoveKeepsInv(s, c, StepExec(s, c, s.callers[c], reply).callers[c]);
    }
  }

  lemma DropKeepsInv(s: Sys)
    requires Inv(s)
    ensures Inv(Dropped(s))
  {
    forall c | c in s.callers ensures PcInv(Dropped(s), c, s.callers[c]) {
      assert PcInv(s, c, s.callers[c]);
    }
  }

  lemma BeginKeepsInv(s: Sys, c: CallerId, added: seq<Message>)
    requires Inv(s) && c !in s.callers
    ensures Inv(Step(s, Begin(c, added)))
  {
    var s1 := s.(arrived := s.arrived[c := s.version]);
    forall d | d in s.callers ensures PcInv(s1, d, s1.callers[d]) {
      assert PcInv(s, d, s.callers[d]);
    }
    forall i | 0 <= i < |s.log| ensures Finished(s1, s.log[i].c) {
      assert Finished(s, s.log[i].c);
    }
    MoveKeepsInv(s1, c, Idle(added, 0));
  }

  lemma StepKeepsInv(s: Sys, e: Event)
    requires Inv(s)
    ensures Inv(Step(s, e))
  {
    match e
    case Begin(c, added) => if c !in s.callers { BeginKeepsInv(s, c, added); }
    case Clear => DropKeepsInv(s);
    case Expire => DropKeepsInv(s);
    case Exec(c) => if c in s.callers && s.callers[c].HasRead? { ExecKeepsInv(s, c, true); }
    case ExecReplyLost(c) => if c in s.callers && s.callers[c].HasRead? { ExecKeepsInv(s, c, false); }
    case _ =>
      if e.c in s.callers {
        assert PcInv(s, e.c, s.callers[e.c]);
        MoveKeepsInv(s, e.c, Step(s, e).callers[e.c]);
        assert Step(s, e) == At(s, e.c, Step(s, e).callers[e.c]);
      }
  }

  lemma {:induction false} RunKeepsInv(s: Sys, events: seq<Event>)
    requires Inv(s)
    ensures Inv(Run(s, events))
    decreases |events|
  {
    if events != [] {
      StepKeepsInv(s, events[0]);
      RunKeepsInv(Step(s, events[0]), events[1..]);
    }
  }

  /**
   * Saves linearise at their EXEC: the stored history is the last twenty
   * messages of the starting history followed by the committed saves in commit
   * order, each save once.  A save that gave up is in no log, and was
   * overtaken by at least four writes of others.
   */
  lemma SavesLinearise(value: Stored, events: seq<Event>)
    ensures var s := Run(Init(value), events);
            && Linearised(s)
            && forall c | c in s.callers && s.callers[c] == Abandoned ::
                 && c in s.arrived && s.arrived[c] + MAX_RETRIES + 1 <= s.version
                 && forall i | 0 <= i < |s.log| :: s.log[i].c != c
  {
    RunKeepsInv(Init(value), events);
    var s := Run(Init(value), events);
    forall c | c in s.callers && s.callers[c] == Abandoned
      ensures c in s.arrived && s.arrived[c] + MAX_RETRIES + 1 <= s.version
    {
      assert PcInv(s, c, s.callers[c]);
    }
  }

  // ---- every attempt ends one way ---------------------------------------------------

  function LastOf(list: seq<Message>, n: nat): seq<Message> {
    if |list| <= n then list else list[|list| - n..]
  }

  lemma RunOfThree(s: Sys, e: Event, f: Event, g: Event)
    ensures Run(s, [e, f, g]) == Step(Step(Step(s, e), f), g)
  {
    assert [e, f, g][1..] == [f, g] && [f, g][1..] == [g] && [g][1..] == [];
    assert Run(Step(Step(s, e), f), [g]) == Step(Step(Step(s, e), f), g);
    assert Run(Step(s, e), [f, g]) == Step(Step(Step(s, e), f), g);
  }

  /** An attempt nobody comes between lands: the last twenty of what was stored and what is added, in the log once more. */
  lemma AttemptAloneLands(s: Sys, c: CallerId)
    requires c in s.callers && s.callers[c].Idle?
    ensures var t := Run(s, [Watch(c), Get(c), Exec(c)]);
            var added := s.callers[c].added;
            && t.value == Messages(LastOf((if s.value.Messages? then s.value.list else []) + added, 20))
            && t.callers == s.callers[c := Committed] && t.log == s.log + [Commit(c, added)]
  {
    RunOfThree(s, Watch(c), Get(c), Exec(c));
    var s1 := Step(s, Watch(c));
    var s2 := Step(s1, Get(c));
    var s3 := Step(s2, Exec(c));
    assert s2.callers[c].HasRead? && s2.callers[c].version == s2.version;
    assert s3.callers == s.callers[c := Committed];
    hide Run;
  }

  /** An attempt that was overtaken writes nothing: the save tries again, three more times at most. */
  lemma OvertakenAttempt(s: Sys, c: CallerId)
    requires c in s.callers && s.callers[c].HasRead? && s.callers[c].version != s.version
    ensures var pc := s.callers[c];
            && Step(s, Exec(c))
               == s.(callers := s.callers[c := if pc.attempt < 3 then Idle(pc.added, pc.attempt + 1) else Abandoned])
            && Step(s, ExecReplyLost(c)) == s.(callers := s.callers[c := Broken])
  {
  }

  /** Whatever fails on the way ends the save; a lost reply leaves its write in place. */
  lemma FailureEndsTheSave(s: Sys, c: CallerId)
    requires c in s.callers
    ensures s.callers[c].Idle? || s.callers[c].Watching? || s.callers[c].HasRead? ==>
              Step(s, Fail(c)) == s.(callers := s.callers[c := Broken])
    ensures s.callers[c].HasRead? && s.callers[c].version == s.version ==>
              var t := Step(s, ExecReplyLost(c));
              t.callers == s.callers[c := Broken] && t.value == Appended(s.callers[c].raw, s.callers[c].added)
  {
  }
}
