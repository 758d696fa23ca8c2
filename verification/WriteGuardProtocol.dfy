/**
 * Any number of callers confirming, cancelling and resetting one write token
 * under the leased lock (src/brain/write-guard.service.ts, and the reset that
 * src/brain/confirmation.service.ts sends after a failed execution).
 *
 * One event is one store command.  Deleting an expired record is folded into
 * the read that notices it: no later read can see that record either way.
 */
module WriteGuardProtocol {
  import opened Common
  import TokenLock
  import opened WriteGuard

  type CallerId = nat

  const LEASE_MS := TokenLock.LEASE_MS

  datatype Op = ConfirmOp(customer: string) | CancelOp

  datatype Answer = LockBusy | Refused | SecondNeeded | Go | CancelDone | CancelRefused

  datatype Change = PutFirst(w: PendingWrite) | PutConfirmed(w: PendingWrite) | DeleteCancelled

  datatype Pc =
    | Asking(op: Op)
    | Holding(op: Op, since: int)
    | Saving(change: Change, since: int, judgedAt: int)
    | Leaving(answer: Answer, since: int)
    | Answered(answer: Answer)
    | Resetting(loaded: PendingWrite)
    | ResetDone

  datatype Lock = Lock(owner: CallerId, expiresAt: int)

  datatype Event =
    | Ask(c: CallerId, op: Op)
    | Acquire(c: CallerId)
    | Load(c: CallerId)
    | Write(c: CallerId)
    | Release(c: CallerId)
    | ResetLoad(c: CallerId)
    | ResetWrite(c: CallerId)
    | Evict
    | Tick(now: int)

  /** A go-ahead on record: the caller last asked for a second confirm, when the token was judged, when it was written. */
  datatype GoneAhead = GoneAhead(asked: Option<CallerId>, judgedAt: int, writtenAt: int)

  /**
   * `origin` is the record as suspended.  The other trailing fields are
   * bookkeeping: go-aheads since the last reset, the caller holding the
   * latest unspent go-ahead, the caller last asked for a second confirm, the
   * record of each go-ahead ever given, and whether a cancel took effect.
   */
  datatype Guard = Guard(
    now: int,
    lock: Option<Lock>,
    token: Option<PendingWrite>,
    callers: map<CallerId, Pc>,
    origin: PendingWrite,
    goAheads: nat,
    owner: Option<CallerId>,
    askedBy: Option<CallerId>,
    followed: map<CallerId, GoneAhead>,
    cancelled: bool)

  function Suspended(now: int, w: PendingWrite): Guard {
    Guard(now, None, Some(w), map[], w, 0, None, None, map[], false)
  }

  predicate Held(s: Guard) {
    s.lock.Some? && s.now < s.lock.value.expiresAt
  }

  function At(s: Guard, c: CallerId, pc: Pc): Guard {
    s.(callers := s.callers[c := pc])
  }

  function StepAcquire(s: Guard, c: CallerId, op: Op): Guard {
    if Held(s) then At(s, c, Answered(LockBusy))
    else At(s, c, Holding(op, s.now)).(lock := Some(Lock(c, s.now + LEASE_MS)))
  }

  function LiveToken(s: Guard): Option<PendingWrite> {
    if s.token.Some? && s.now <= s.token.value.expiresAt then s.token else None
  }

  function StepLoad(s: Guard, c: CallerId, op: Op, since: int): Guard {
    var w := LiveToken(s);
    match op
    case ConfirmOp(customer) => (
      match Judged(w, customer)
      case Refuse(_) => At(s, c, Leaving(Refused, since)).(token := w)
      case AskAgain(first) => At(s, c, Saving(PutFirst(first), since, s.now))
      case GoAhead(confirmed) => At(s, c, Saving(PutConfirmed(confirmed), since, s.now)))
    case CancelOp =>
      if w.None? || w.value.status == Confirmed then At(s, c, Leaving(CancelRefused, since)).(token := w)
      else At(s, c, Saving(DeleteCancelled, since, s.now))
  }

  function StepWrite(s: Guard, c: CallerId, change: Change, since: int, judgedAt: int): Guard {
    match change
    case PutFirst(w) => At(s, c, Leaving(SecondNeeded, since)).(token := Some(w), askedBy := Some(c))
    case PutConfirmed(w) =>
      At(s, c, Leaving(Go, since))
      .(token := Some(w), goAheads := s.goAheads + 1, owner := Some(c),
        followed := s.followed[c := GoneAhead(s.askedBy, judgedAt, s.now)])
    case DeleteCancelled => At(s, c, Leaving(CancelDone, since)).(token := None, cancelled := true)
  }

  /** Compare-and-delete: only the caller's own live lock goes away. */
  function StepRelease(s: Guard, c: CallerId, answer: Answer): Guard {
    var s' := At(s, c, Answered(answer));
    if Held(s) && s.lock.value.owner == c then s'.(lock := None) else s'
  }

  function StepResetLoad(s: Guard, c: CallerId): Guard {
    var w := LiveToken(s);
    if w.Some? && w.value.status == Confirmed then At(s, c, Resetting(w.value))
    else At(s, c, ResetDone).(token := w)
  }

  function StepResetWrite(s: Guard, c: CallerId, loaded: PendingWrite): Guard {
    At(s, c, ResetDone)
    .(token := Some(loaded.(status := Pending)), goAheads := 0, askedBy := None)
  }

  function Step(s: Guard, e: Event): Guard {
    match e
    case Ask(c, op) => if c in s.callers then s else At(s, c, Asking(op))
    case Evict => s.(token := LiveToken(s))
    case Tick(now) => if s.now <= now then s.(now := now) else s
    case _ =>
      if e.c !in s.callers then s else
      var pc := s.callers[e.c];
      match e
      case Acquire(c) => if pc.Asking? then StepAcquire(s, c, pc.op) else s
      case Load(c) => if pc.Holding? then StepLoad(s, c, pc.op, pc.since) else s
      case Write(c) => if pc.Saving? then StepWrite(s, c, pc.change, pc.since, pc.judgedAt) else s
      case Release(c) => if pc.Leaving? then StepRelease(s, c, pc.answer) else s
      case ResetLoad(c) => if pc == Answered(Go) then StepResetLoad(s, c) else s
      case ResetWrite(c) => if pc.Resetting? then StepResetWrite(s, c, pc.loaded) else s
      case _ => s
  }

  function Run(s: Guard, events: seq<Event>): Guard
    decreases |events|
  {
    if events == [] then s else Run(Step(s, events[0]), events[1..])
  }

  // ---- the lease ------------------------------------------------------------

  predicate InBody(pc: Pc) {
    pc.Holding? || pc.Saving? || pc.Leaving?
  }

  /** Bodies of confirm and cancel end before their lease does. */
  predicate LeaseKept(s: Guard, e: Event) {
    e.Tick? ==> forall c | c in s.callers && InBody(s.callers[c]) :: e.now < s.callers[c].since + LEASE_MS
  }

  predicate LeaseKeptRun(s: Guard, events: seq<Event>)
    decreases |events|
  {
    events == [] || (LeaseKept(s, events[0]) && LeaseKeptRun(Step(s, events[0]), events[1..]))
  }

  // ---- the invariant --------------------------------------------------------

  /** Holds a go-ahead it has not yet turned into a reset. */
  predicate Spender(pc: Pc) {
    pc == Answered(Go) || pc.Resetting? || (pc.Leaving? && pc.answer == Go)
  }

  predicate SameToken(w: PendingWrite, origin: PendingWrite) {
    w == origin.(status := w.status, confirmCount := w.confirmCount)
  }

  predicate NoSpender(s: Guard) {
    forall c | c in s.callers :: !Spender(s.callers[c])
  }

  predicate LockInv(s: Guard) {
    forall c | c in s.callers && InBody(s.callers[c]) ::
      s.lock == Some(Lock(c, s.callers[c].since + LEASE_MS)) && s.now < s.callers[c].since + LEASE_MS
  }

  predicate ToldToAskAgain(pc: Pc) {
    pc == Answered(SecondNeeded) || (pc.Leaving? && pc.answer == SecondNeeded)
  }

  /** The caller asked for a second confirm has been answered, or is about to be. */
  predicate Asked(s: Guard) {
    s.askedBy.Some? && s.askedBy.value in s.callers && ToldToAskAgain(s.callers[s.askedBy.value])
  }

  predicate TokenInv(s: Guard) {
    s.token.Some? ==>
      var w := s.token.value;
      && SameToken(w, s.origin)
      && (w.status == Pending || w.status == FirstConfirmed || w.status == Confirmed)
      && (w.status != Confirmed && s.now <= w.expiresAt ==> NoSpender(s) && s.goAheads == 0)
      && (w.status == FirstConfirmed && s.now <= w.expiresAt ==> Asked(s))
  }

  predicate PcInv(s: Guard, c: CallerId, pc: Pc) {
    match pc
    case Saving(change, _, judgedAt) =>
      && NoSpender(s) && s.goAheads == 0 && !s.cancelled
      && judgedAt <= s.origin.expiresAt
      && (change.PutFirst? ==> SameToken(change.w, s.origin) && change.w.status == FirstConfirmed && HighRisk(s.origin))
      && (change.PutConfirmed? ==> SameToken(change.w, s.origin) && change.w.status == Confirmed
                                   && (HighRisk(s.origin) ==> Asked(s) && s.askedBy.value != c))
    case Resetting(loaded) => SameToken(loaded, s.origin)
    case _ => true
  }

  /** A go-ahead on a high-risk token followed another caller that was told to confirm again. */
  predicate Followed(s: Guard, c: CallerId)
    requires c in s.followed
  {
    var d := s.followed[c].asked;
    d.Some? && d.value != c && d.value in s.callers && s.callers[d.value] == Answered(SecondNeeded)
  }

  predicate PcsInv(s: Guard) {
    forall c | c in s.callers :: PcInv(s, c, s.callers[c])
  }

  predicate SpendersInv(s: Guard) {
    forall c | c in s.callers && Spender(s.callers[c]) :: s.owner == Some(c) && c in s.followed
  }

  predicate SecondedInv(s: Guard) {
    HighRisk(s.origin) ==> forall c | c in s.followed :: Followed(s, c)
  }

  predicate Inv(s: Guard) {
    && LockInv(s)
    && TokenInv(s)
    && s.goAheads <= 1
    && PcsInv(s)
    && SpendersInv(s)
    && SecondedInv(s)
    && (s.cancelled ==> s.token == None && NoSpender(s))
  }

  lemma TimeKeepsInv(s: Guard, e: Event)
    requires Inv(s) && LeaseKept(s, e)
    requires e.Tick? || e.Evict?
    ensures Inv(Step(s, e))
  {
  }

  /** A caller moving on without a new go-ahead, keeping what it was told. */
  predicate Quiet(s: Guard, c: CallerId, pc: Pc) {
    && (Spender(pc) ==> c in s.callers && Spender(s.callers[c]))
    && (c in s.callers && ToldToAskAgain(s.callers[c]) ==> ToldToAskAgain(pc))
    && (c in s.callers && s.callers[c] == Answered(SecondNeeded) ==> pc == Answered(SecondNeeded))
  }

  lemma QuietKeepsStanding(s: Guard, c: CallerId, pc: Pc, t: Guard)
    requires Quiet(s, c, pc) && t == At(s, c, pc).(lock := t.lock)
    ensures NoSpender(s) ==> NoSpender(t)
    ensures Asked(s) ==> Asked(t)
    ensures SpendersInv(s) ==> SpendersInv(t)
    ensures SecondedInv(s) ==> SecondedInv(t)
  {
    hide Spender, ToldToAskAgain, HighRisk;
  }

  lemma QuietKeepsPcs(s: Guard, c: CallerId, pc: Pc, t: Guard)
    requires Quiet(s, c, pc) && t == At(s, c, pc).(lock := t.lock)
    requires PcsInv(s) && PcInv(s, c, pc)
    ensures PcsInv(t)
  {
    QuietKeepsStanding(s, c, pc, t);
    hide Quiet, NoSpender, Asked, SameToken, HighRisk, SpendersInv, SecondedInv;
    forall d | d in t.callers ensures PcInv(t, d, t.callers[d]) {
      assert d != c ==> PcInv(s, d, s.callers[d]);
    }
  }

  /** Only the lock remains to be looked at. */
  lemma QuietKeepsInv(s: Guard, c: CallerId, pc: Pc, t: Guard)
    requires Inv(s) && Quiet(s, c, pc) && t == At(s, c, pc).(lock := t.lock)
    requires PcInv(s, c, pc) && LockInv(t)
    ensures Inv(t)
  {
    QuietKeepsStanding(s, c, pc, t);
    QuietKeepsPcs(s, c, pc, t);
    hide Quiet, NoSpender, Asked, SameToken, HighRisk, PcInv, PcsInv, LockInv, SpendersInv, SecondedInv;
  }

  lemma DropExpired(s: Guard)
    requires Inv(s)
    ensures Inv(s.(token := LiveToken(s)))
  {
    hide LiveToken, Inv;
    TimeKeepsInv(s, Evict);
  }

  /** A caller outside the body that stays outside. */
  lemma OutsideKeepsLock(s: Guard, c: CallerId, pc: Pc)
    requires LockInv(s) && !InBody(pc)
    ensures LockInv(At(s, c, pc))
  {
  }

  lemma ArrivalKeepsInv(s: Guard, c: CallerId, pc: Pc)
    requires Inv(s)
    requires c in s.callers ==> s.callers[c].Asking?
    requires pc.Asking? || pc == Answered(LockBusy)
    ensures Inv(At(s, c, pc))
  {
    assert LockInv(s);
    hide Inv, LockInv;
    OutsideKeepsLock(s, c, pc);
    QuietKeepsInv(s, c, pc, At(s, c, pc));
  }

  lemma GrantKeepsLock(s: Guard, c: CallerId, op: Op)
    requires LockInv(s) && !Held(s)
    ensures LockInv(StepAcquire(s, c, op))
  {
    assert forall d | d in s.callers :: !InBody(s.callers[d]);
  }

  lemma AcquireKeepsInv(s: Guard, c: CallerId)
    requires Inv(s)
    ensures Inv(Step(s, Acquire(c)))
  {
    if c in s.callers && s.callers[c].Asking? {
      assert LockInv(s);
      hide Inv, LockInv;
      if Held(s) {
        ArrivalKeepsInv(s, c, Answered(LockBusy));
      } else {
        var op := s.callers[c].op;
        GrantKeepsLock(s, c, op);
        QuietKeepsInv(s, c, Holding(op, s.now), StepAcquire(s, c, op));
      }
    }
  }

  lemma OneBody(s: Guard, c: CallerId)
    requires LockInv(s) && c in s.callers && InBody(s.callers[c])
    ensures forall d | d in s.callers && InBody(s.callers[d]) :: d == c
    ensures s.lock == Some(Lock(c, s.callers[c].since + LEASE_MS)) && s.now < s.callers[c].since + LEASE_MS
  {
  }

  /** Moving on inside the body. */
  lemma InsideKeepsLock(s: Guard, c: CallerId, pc: Pc, t: Guard)
    requires LockInv(s) && c in s.callers && InBody(s.callers[c]) && InBody(pc) && pc.since == s.callers[c].since
    requires t.callers == s.callers[c := pc] && t.lock == s.lock && t.now == s.now
    ensures LockInv(t)
  {
    OneBody(s, c);
  }

  /** What a body that may change the token knows when it has read it. */
  lemma OpenTokenIsUnspent(s: Guard, c: CallerId)
    requires Inv(s) && c in s.callers && s.callers[c].Holding?
    ensures LiveToken(s).Some? && LiveToken(s).value.status != Confirmed ==>
              NoSpender(s) && s.goAheads == 0 && !s.cancelled
    ensures LiveToken(s).Some? ==> SameToken(LiveToken(s).value, s.origin)
    ensures LiveToken(s).Some? && LiveToken(s).value.status == FirstConfirmed ==>
              Asked(s) && s.callers[s.askedBy.value] == Answered(SecondNeeded)
  {
    OneBody(s, c);
    hide NoSpender, PcInv, PcsInv, HighRisk, SpendersInv, SecondedInv, LockInv;
  }

  /** What the reader goes on with is what its next stop must know. */
  lemma LoadedPc(s: Guard, c: CallerId)
    requires Inv(s) && c in s.callers && s.callers[c].Holding?
    ensures var pc := StepLoad(s, c, s.callers[c].op, s.callers[c].since).callers[c];
            && InBody(pc) && pc.since == s.callers[c].since && !Spender(pc) && !ToldToAskAgain(pc) && PcInv(s, c, pc)
  {
    OpenTokenIsUnspent(s, c);
    assert LiveToken(s).Some? ==> s.now <= s.origin.expiresAt;
    hide Inv, NoSpender, LiveToken;
  }

  lemma LoadKeepsInv(s: Guard, c: CallerId)
    requires Inv(s)
    ensures Inv(Step(s, Load(c)))
  {
    if c in s.callers && s.callers[c].Holding? {
      var t := StepLoad(s, c, s.callers[c].op, s.callers[c].since);
      var pc := t.callers[c];
      LoadedPc(s, c);
      var moved := At(s, c, pc);
      assert LiveToken(moved) == LiveToken(s);
      assert t == moved || t == moved.(token := LiveToken(moved));
      assert LockInv(s);
      hide Inv, LockInv, PcInv, StepLoad;
      InsideKeepsLock(s, c, pc, moved);
      QuietKeepsInv(s, c, pc, moved);
      DropExpired(moved);
    }
  }

  /** After its write the body leaves; nobody else is in one. */
  lemma AfterBody(s: Guard, c: CallerId, answer: Answer, t: Guard)
    requires Inv(s) && c in s.callers && s.callers[c].Saving?
    requires t.callers == s.callers[c := Leaving(answer, s.callers[c].since)]
    requires t.now == s.now && t.lock == s.lock && t.origin == s.origin
    ensures LockInv(t) && PcsInv(t)
    ensures forall d | d in t.callers && Spender(t.callers[d]) :: d == c && answer == Go
    ensures forall d | d in s.callers && s.callers[d] == Answered(SecondNeeded) :: d in t.callers && t.callers[d] == Answered(SecondNeeded)
  {
    assert PcInv(s, c, s.callers[c]);
    OneBody(s, c);
    InsideKeepsLock(s, c, Leaving(answer, s.callers[c].since), t);
    hide LockInv, TokenInv, SpendersInv, SecondedInv, Asked, HighRisk, SameToken;
    forall d | d in t.callers ensures PcInv(t, d, t.callers[d]) {
      if d != c {
        assert PcInv(s, d, s.callers[d]);
      }
    }
  }

  lemma WriteFirstKeepsInv(s: Guard, c: CallerId, t: Guard)
    requires Inv(s) && c in s.callers && s.callers[c].Saving? && s.callers[c].change.PutFirst?
    requires t == StepWrite(s, c, s.callers[c].change, s.callers[c].since, s.callers[c].judgedAt)
    ensures Inv(t)
  {
    AfterBody(s, c, SecondNeeded, t);
    assert PcInv(s, c, s.callers[c]);
    assert NoSpender(t) && Asked(t);
    hide LockInv, PcsInv, HighRisk, SameToken, NoSpender, Asked;
  }

  lemma WriteConfirmedKeepsInv(s: Guard, c: CallerId, t: Guard)
    requires Inv(s) && c in s.callers && s.callers[c].Saving? && s.callers[c].change.PutConfirmed?
    requires t == StepWrite(s, c, s.callers[c].change, s.callers[c].since, s.callers[c].judgedAt)
    ensures Inv(t)
  {
    AfterBody(s, c, Go, t);
    assert PcInv(s, c, s.callers[c]);
    OneBody(s, c);
    assert SpendersInv(t);
    hide LockInv, PcsInv, HighRisk, SameToken, NoSpender, SpendersInv;
    assert HighRisk(t.origin) ==> Followed(t, c);
    assert SecondedInv(t);
  }

  lemma WriteCancelledKeepsInv(s: Guard, c: CallerId, t: Guard)
    requires Inv(s) && c in s.callers && s.callers[c].Saving? && s.callers[c].change.DeleteCancelled?
    requires t == StepWrite(s, c, s.callers[c].change, s.callers[c].since, s.callers[c].judgedAt)
    ensures Inv(t)
  {
    AfterBody(s, c, CancelDone, t);
    assert NoSpender(t);
    hide LockInv, PcsInv, HighRisk, NoSpender;
  }

  lemma WriteKeepsInv(s: Guard, c: CallerId)
    requires Inv(s)
    ensures Inv(Step(s, Write(c)))
  {
    if c in s.callers && s.callers[c].Saving? {
      var t := Step(s, Write(c));
      assert t == StepWrite(s, c, s.callers[c].change, s.callers[c].since, s.callers[c].judgedAt);
      hide Inv, Step, StepWrite;
      match s.callers[c].change
      case PutFirst(_) => WriteFirstKeepsInv(s, c, t);
      case PutConfirmed(_) => WriteConfirmedKeepsInv(s, c, t);
      case DeleteCancelled => WriteCancelledKeepsInv(s, c, t);
    }
  }

  lemma ReleaseKeepsInv(s: Guard, c: CallerId)
    requires Inv(s)
    ensures Inv(Step(s, Release(c)))
  {
    if c in s.callers && s.callers[c].Leaving? {
      var t := StepRelease(s, c, s.callers[c].answer);
      OneBody(s, c);
      assert LockInv(t);
      hide Inv, LockInv;
      QuietKeepsInv(s, c, Answered(s.callers[c].answer), t);
    }
  }

  lemma ResetLoadKeepsInv(s: Guard, c: CallerId)
    requires Inv(s)
    ensures Inv(Step(s, ResetLoad(c)))
  {
    if c in s.callers && s.callers[c] == Answered(Go) {
      var t := StepResetLoad(s, c);
      var pc := t.callers[c];
      var moved := At(s, c, pc);
      assert PcInv(s, c, pc) && LockInv(s);
      assert LiveToken(moved) == LiveToken(s);
      assert t == moved || t == moved.(token := LiveToken(moved));
      hide Inv, LockInv, PcInv, StepResetLoad, LiveToken;
      OutsideKeepsLock(s, c, pc);
      QuietKeepsInv(s, c, pc, moved);
      DropExpired(moved);
    }
  }

  lemma OneSpender(s: Guard, c: CallerId)
    requires Inv(s) && c in s.callers && Spender(s.callers[c])
    ensures forall d | d in s.callers && Spender(s.callers[d]) :: d == c
    ensures forall d | d in s.callers :: !s.callers[d].Saving?
    ensures !s.cancelled
  {
    assert forall d | d in s.callers :: PcInv(s, d, s.callers[d]);
    assert !NoSpender(s);
    hide NoSpender, LockInv, TokenInv, SecondedInv, Asked, SameToken, HighRisk;
  }

  lemma ResetWriteKeepsInv(s: Guard, c: CallerId)
    requires Inv(s)
    ensures Inv(Step(s, ResetWrite(c)))
  {
    if c in s.callers && s.callers[c].Resetting? {
      var loaded := s.callers[c].loaded;
      var t := StepResetWrite(s, c, loaded);
      OneSpender(s, c);
      assert PcInv(s, c, s.callers[c]);
      assert NoSpender(t) && SpendersInv(t);
      OutsideKeepsLock(s, c, ResetDone);
      assert LockInv(t);
      hide NoSpender, LockInv, SpendersInv, HighRisk, Asked, Spender;
      forall d | d in t.callers ensures PcInv(t, d, t.callers[d]) {
        assert d != c ==> PcInv(s, d, s.callers[d]);
      }
      assert SecondedInv(t);
    }
  }

  lemma StepKeepsInv(s: Guard, e: Event)
    requires Inv(s) && LeaseKept(s, e)
    ensures Inv(Step(s, e))
  {
    match e
    case Load(c) => LoadKeepsInv(s, c);
    case Write(c) => WriteKeepsInv(s, c);
    case Release(c) => ReleaseKeepsInv(s, c);
    case ResetLoad(c) => ResetLoadKeepsInv(s, c);
    case ResetWrite(c) => ResetWriteKeepsInv(s, c);
    case Acquire(c) => AcquireKeepsInv(s, c);
    case Ask(c, op) => if c !in s.callers { ArrivalKeepsInv(s, c, Asking(op)); }
    case _ => TimeKeepsInv(s, e);
  }

  lemma {:induction false} RunKeepsInv(s: Guard, events: seq<Event>)
    requires Inv(s) && LeaseKeptRun(s, events)
    ensures Inv(Run(s, events)) && Run(s, events).origin == s.origin
    decreases |events|
  {
    hide Inv, LeaseKept;
    if events != [] {
      StepKeepsInv(s, events[0]);
      RunKeepsInv(Step(s, events[0]), events[1..]);
    }
  }

  /**
   * Whatever callers do, while leases are kept: at most one go-ahead per
   * window between resets; on a high-risk token each one follows another
   * caller that was told to confirm again.
   */
  lemma GoAheadsAreSingleAndSeconded(now: int, w: PendingWrite, events: seq<Event>)
    requires w.status == Pending
    requires LeaseKeptRun(Suspended(now, w), events)
    ensures var s := Run(Suspended(now, w), events);
            && s.goAheads <= 1
            && (w.risk == High || w.needsReview ==> forall c | c in s.followed :: Followed(s, c))
            && (forall c, d | c in s.callers && d in s.callers && Spender(s.callers[c]) && Spender(s.callers[d]) :: c == d)
  {
    RunKeepsInv(Suspended(now, w), events);
  }

  /** Every caller that went ahead is on record, so the theorem above speaks of all of them. */
  lemma {:induction false} GoAheadsAreRecorded(s: Guard, events: seq<Event>)
    requires Inv(s) && LeaseKeptRun(s, events)
    ensures forall c | c in Run(s, events).callers && Spender(Run(s, events).callers[c]) :: c in Run(s, events).followed
    decreases |events|
  {
    RunKeepsInv(s, events);
  }

  /** Once a cancel took effect no further go-ahead is ever given. */
  lemma {:induction false} CancelledStaysCancelled(s: Guard, events: seq<Event>)
    requires Inv(s) && s.cancelled && LeaseKeptRun(s, events)
    ensures var s' := Run(s, events);
            s'.cancelled && s'.token == None && s'.followed == s.followed && NoSpender(s')
    decreases |events|
  {
    if events != [] {
      StepKeepsInv(s, events[0]);
      CancelledStaysCancelled(Step(s, events[0]), events[1..]);
    }
  }

  // ---- expiry ---------------------------------------------------------------

  predicate IsMove(e: Event) {
    !e.Evict? && !e.Tick?
  }

  /** A caller's event moves at most that caller, and only a write extends the record. */
  lemma MovesOne(s: Guard, e: Event)
    requires IsMove(e)
    ensures var t := Step(s, e);
            && t.now == s.now && t.origin == s.origin && (e.Write? || t.followed == s.followed)
            && (t.callers == s.callers || (e.c in t.callers && t.callers == s.callers[e.c := t.callers[e.c]]))
  {
    if e.Load? || e.Write? {
      BodyMovesOne(s, e);
    } else {
      hide Judged, LiveToken, Held, StepLoad, StepWrite;
    }
  }

  lemma BodyMovesOne(s: Guard, e: Event)
    requires e.Load? || e.Write?
    ensures var t := Step(s, e);
            && t.now == s.now && t.origin == s.origin && (e.Write? || t.followed == s.followed)
            && (t.callers == s.callers || (e.c in t.callers && t.callers == s.callers[e.c := t.callers[e.c]]))
  {
    hide Judged, LiveToken;
  }

  /** Bodies judge between their acquire and now, and write between their judgement and now. */
  predicate TimesInv(s: Guard) {
    && (forall c | c in s.callers :: PcTimes(s.callers[c], s.now))
    && (forall c | c in s.followed :: InTime(s.followed[c], s.origin))
  }

  /** Judged at or before expiry, written less than a lease later. */
  predicate InTime(g: GoneAhead, origin: PendingWrite) {
    g.judgedAt <= origin.expiresAt && g.judgedAt <= g.writtenAt < g.judgedAt + LEASE_MS
  }

  predicate PcTimes(pc: Pc, now: int) {
    && (InBody(pc) ==> pc.since <= now)
    && (pc.Saving? ==> pc.since <= pc.judgedAt <= now)
  }

  lemma WriteIsInTime(s: Guard, c: CallerId)
    requires Inv(s) && TimesInv(s)
    ensures TimesInv(Step(s, Write(c)))
  {
    if c in s.callers && s.callers[c].Saving? {
      assert PcInv(s, c, s.callers[c]) && PcTimes(s.callers[c], s.now);
      assert s.now < s.callers[c].since + LEASE_MS;
      hide Inv;
      var t := Step(s, Write(c));
      assert t.callers == s.callers[c := t.callers[c]] && PcTimes(t.callers[c], s.now);
    }
  }

  lemma MoveKeepsTimes(s: Guard, c: CallerId, t: Guard)
    requires TimesInv(s) && t.origin == s.origin && t.now == s.now && t.followed == s.followed
    requires t.callers == s.callers || (c in t.callers && t.callers == s.callers[c := t.callers[c]])
    requires c in t.callers ==> PcTimes(t.callers[c], s.now)
    ensures TimesInv(t)
  {
    hide PcTimes, InTime;
  }

  lemma MovedTimes(s: Guard, e: Event)
    requires IsMove(e) && (e.c in s.callers ==> PcTimes(s.callers[e.c], s.now))
    ensures e.c in Step(s, e).callers ==> PcTimes(Step(s, e).callers[e.c], s.now)
  {
    hide Judged, LiveToken, Held;
  }

  lemma TimePasses(s: Guard, e: Event)
    requires TimesInv(s) && !IsMove(e)
    ensures TimesInv(Step(s, e))
  {
    hide LiveToken, InTime;
  }

  lemma StepKeepsTimes(s: Guard, e: Event)
    requires Inv(s) && TimesInv(s)
    ensures TimesInv(Step(s, e))
  {
    assert IsMove(e) && e.c in s.callers ==> PcTimes(s.callers[e.c], s.now);
    hide Inv, Step, TimesInv, PcTimes;
    if !IsMove(e) {
      TimePasses(s, e);
    } else if e.Write? {
      WriteIsInTime(s, e.c);
    } else {
      MovesOne(s, e);
      MovedTimes(s, e);
      MoveKeepsTimes(s, e.c, Step(s, e));
    }
  }

  lemma {:induction false} RunKeepsTimes(s: Guard, events: seq<Event>)
    requires Inv(s) && TimesInv(s) && LeaseKeptRun(s, events)
    ensures TimesInv(Run(s, events)) && Run(s, events).origin == s.origin
    decreases |events|
  {
    hide Inv, TimesInv, Step, LeaseKept;
    if events != [] {
      StepKeepsTimes(s, events[0]);
      StepKeepsInv(s, events[0]);
      StepKeepsOrigin(s, events[0]);
      RunKeepsTimes(Step(s, events[0]), events[1..]);
    }
  }

  /**
   * Over every run inside the leases each go-ahead ever given was judged at or
   * before expiry and written less than a lease after its judgement, so before
   * expiresAt + LEASE_MS.
   */
  lemma GoAheadsAreJudgedInTime(s: Guard, events: seq<Event>)
    requires Inv(s) && TimesInv(s) && LeaseKeptRun(s, events)
    ensures TimesInv(Run(s, events)) && Run(s, events).origin == s.origin
    ensures forall c | c in Run(s, events).followed ::
              var g := Run(s, events).followed[c];
              g.judgedAt <= s.origin.expiresAt && g.judgedAt <= g.writtenAt < s.origin.expiresAt + LEASE_MS
  {
    RunKeepsTimes(s, events);
    hide Inv, Run, LeaseKeptRun, PcTimes;
    assert forall c | c in Run(s, events).followed :: InTime(Run(s, events).followed[c], s.origin);
  }

  /**
   * The bound is reached from inside the lease: a body that judged the token
   * in its last millisecond confirms it after it has expired.
   */
  lemma GoAheadCanLandAfterExpiry(w: PendingWrite) returns (events: seq<Event>)
    requires w.status == Pending && !HighRisk(w) && w.customer == ""
    ensures LeaseKeptRun(Suspended(w.expiresAt, w), events)
    ensures var s := Run(Suspended(w.expiresAt, w), events);
            && s.goAheads == 1 && 0 in s.followed && s.now > w.expiresAt
            && s.token.Some? && s.token.value.status == Confirmed
  {
    var s0 := Suspended(w.expiresAt, w);
    var judge := [Ask(0, ConfirmOp("")), Acquire(0), Load(0)];
    JudgesAlone(s0, 0, "");
    var s3 := Run(s0, judge);
    var late := [Tick(w.expiresAt + 1), Write(0)];
    events := judge + late;
    RunSplit(s0, judge, late);
    var s4 := s3.(now := w.expiresAt + 1);
    var put := s3.callers[0].change;
    var s5 := StepWrite(s4, 0, put, w.expiresAt, w.expiresAt);
    assert Step(s3, late[0]) == s4 && Step(s4, Write(0)) == s5;
    assert late[1..] == [Write(0)] && late[1..][1..] == [];
    assert Run(s3, late) == Run(s4, late[1..]) == s5;
    assert LeaseKeptRun(s4, late[1..]) && LeaseKeptRun(s3, late);
    var s1, s2 := Step(s0, judge[0]), Step(Step(s0, judge[0]), judge[1]);
    assert events[1..] == judge[1..] + late && events[1..][1..] == judge[2..] + late;
    assert events[1..][1..][1..] == late && judge[1..][0] == judge[1];
    assert Run(s0, judge) == Run(s1, judge[1..]);
    assert judge[1..][1..] == judge[2..] && judge[2..][1..] == [];
    assert Step(s2, judge[2]) == s3;
    hide Run, Step;
    assert LeaseKeptRun(s2, events[2..]);
  }

  predicate PcExpiry(pc: Pc, expiresAt: int) {
    && (pc.Saving? && !pc.change.DeleteCancelled? ==> pc.change.w.expiresAt == expiresAt)
    && (pc.Resetting? ==> pc.loaded.expiresAt == expiresAt)
  }

  /** Every record anywhere has the expiry it was suspended with. */
  predicate OneExpiry(s: Guard) {
    && (s.token.Some? ==> s.token.value.expiresAt == s.origin.expiresAt)
    && forall c | c in s.callers :: PcExpiry(s.callers[c], s.origin.expiresAt)
  }

  predicate PastBody(pc: Pc) {
    !pc.Asking? && !pc.Holding? && !pc.Saving?
  }

  /** Whoever is on record has left the saving step of its body. */
  predicate RecordedHaveWritten(s: Guard) {
    forall c | c in s.followed :: c in s.callers && PastBody(s.callers[c])
  }

  /** What a body that reads the token may go on with has the token's expiry. */
  lemma LoadKeepsExpiry(s: Guard, c: CallerId)
    requires OneExpiry(s)
    ensures OneExpiry(Step(s, Load(c)))
  {
    if c in s.callers && s.callers[c].Holding? {
      var t := Step(s, Load(c));
      MovesOne(s, Load(c));
      LoadedExpiry(s, c);
      hide Step, OneExpiry, PcExpiry;
      MoveKeepsExpiry(s, c, t);
    }
  }

  lemma LoadedExpiry(s: Guard, c: CallerId)
    requires c in s.callers && s.callers[c].Holding?
    requires s.token.Some? ==> s.token.value.expiresAt == s.origin.expiresAt
    ensures var t := Step(s, Load(c));
            (t.token == s.token || t.token == None) && PcExpiry(t.callers[c], s.origin.expiresAt)
  {
    assert Step(s, Load(c)) == StepLoad(s, c, s.callers[c].op, s.callers[c].since);
    hide Step;
  }

  lemma MoveKeepsExpiry(s: Guard, c: CallerId, t: Guard)
    requires OneExpiry(s) && t.origin == s.origin
    requires t.token == s.token || t.token == None || t.token.value.expiresAt == s.origin.expiresAt
    requires t.callers == s.callers || (c in t.callers && t.callers == s.callers[c := t.callers[c]])
    requires c in t.callers ==> PcExpiry(t.callers[c], s.origin.expiresAt)
    ensures OneExpiry(t)
  {
    hide PcExpiry;
  }

  lemma WriteKeepsExpiry(s: Guard, c: CallerId)
    requires OneExpiry(s)
    ensures OneExpiry(Step(s, Write(c)))
  {
    if c in s.callers && s.callers[c].Saving? {
      assert PcExpiry(s.callers[c], s.origin.expiresAt);
      MoveKeepsExpiry(s, c, Step(s, Write(c)));
    }
  }

  lemma ResetKeepsExpiry(s: Guard, c: CallerId)
    requires OneExpiry(s)
    ensures OneExpiry(Step(s, ResetLoad(c))) && OneExpiry(Step(s, ResetWrite(c)))
  {
    if c in s.callers {
      assert PcExpiry(s.callers[c], s.origin.expiresAt);
      MoveKeepsExpiry(s, c, Step(s, ResetLoad(c)));
      MoveKeepsExpiry(s, c, Step(s, ResetWrite(c)));
    }
  }

  lemma StepKeepsOrigin(s: Guard, e: Event)
    ensures Step(s, e).origin == s.origin && s.now <= Step(s, e).now
  {
    hide Judged, LiveToken, Held;
  }

  lemma StepKeepsOneExpiry(s: Guard, e: Event)
    requires OneExpiry(s)
    ensures OneExpiry(Step(s, e)) && Step(s, e).origin == s.origin
  {
    StepKeepsOrigin(s, e);
    hide OneExpiry;
    match e
    case Load(c) => LoadKeepsExpiry(s, c);
    case Write(c) => WriteKeepsExpiry(s, c);
    case ResetLoad(c) => ResetKeepsExpiry(s, c);
    case ResetWrite(c) => ResetKeepsExpiry(s, c);
    case _ => OutsideKeepsExpiry(s, e);
  }

  lemma OutsideKeepsExpiry(s: Guard, e: Event)
    requires OneExpiry(s) && (e.Ask? || e.Acquire? || e.Release? || e.Evict? || e.Tick?)
    ensures OneExpiry(Step(s, e))
  {
    if e.Ask? || e.Acquire? || e.Release? {
      MoveKeepsExpiry(s, e.c, Step(s, e));
    }
  }

  lemma StepKeepsRecordedHaveWritten(s: Guard, e: Event)
    requires RecordedHaveWritten(s)
    ensures RecordedHaveWritten(Step(s, e))
  {
    if IsMove(e) {
      MovesOne(s, e);
      MovedPast(s, e);
      hide Step, PastBody;
    } else {
      hide LiveToken;
    }
  }

  /** Past the body a caller stays past it, and a write is the step that takes it there. */
  lemma MovedPast(s: Guard, e: Event)
    requires IsMove(e)
    ensures var t := Step(s, e);
            && (e.c in s.callers && PastBody(s.callers[e.c]) ==> e.c in t.callers && PastBody(t.callers[e.c]))
            && (e.Write? && t.followed != s.followed
                ==> e.c in t.callers && PastBody(t.callers[e.c]) && forall d | d in t.followed :: d in s.followed || d == e.c)
  {
    hide Judged, LiveToken, Held;
  }

  /** Needs no lease. */
  lemma {:induction false} RunKeepsOneExpiry(s: Guard, events: seq<Event>)
    requires OneExpiry(s) && RecordedHaveWritten(s)
    ensures OneExpiry(Run(s, events)) && RecordedHaveWritten(Run(s, events)) && Run(s, events).origin == s.origin
    decreases |events|
  {
    if events != [] {
      StepKeepsOneExpiry(s, events[0]);
      StepKeepsRecordedHaveWritten(s, events[0]);
      hide OneExpiry, RecordedHaveWritten, Step;
      RunKeepsOneExpiry(Step(s, events[0]), events[1..]);
    }
  }

  /** A body about to write a go-ahead it has already judged. */
  predicate Confirming(s: Guard) {
    exists c | c in s.callers :: AboutToConfirm(s.callers[c])
  }

  predicate AboutToConfirm(pc: Pc) {
    pc.Saving? && pc.change.PutConfirmed?
  }

  lemma ExpiredStep(s: Guard, e: Event)
    requires OneExpiry(s) && s.now > s.origin.expiresAt && !Confirming(s)
    ensures var t := Step(s, e); t.followed == s.followed && t.now >= s.now && !Confirming(t)
  {
    var t := Step(s, e);
    if IsMove(e) {
      MovesOne(s, e);
      MovedExpired(s, e);
      hide Step, AboutToConfirm;
    } else {
      assert t.callers == s.callers;
      hide Step;
    }
  }

  lemma MovedExpired(s: Guard, e: Event)
    requires IsMove(e) && LiveToken(s) == None
    requires e.c in s.callers ==> !AboutToConfirm(s.callers[e.c])
    ensures var t := Step(s, e);
            t.followed == s.followed && (e.c in t.callers ==> !AboutToConfirm(t.callers[e.c]))
  {
    hide Held;
  }

  lemma {:induction false} ExpiredStaysExpired(s: Guard, events: seq<Event>)
    requires OneExpiry(s) && s.now > s.origin.expiresAt && !Confirming(s)
    ensures Run(s, events).followed == s.followed
    decreases |events|
  {
    if events != [] {
      ExpiredStep(s, events[0]);
      StepKeepsOneExpiry(s, events[0]);
      hide Step, OneExpiry, Confirming;
      ExpiredStaysExpired(Step(s, events[0]), events[1..]);
    }
  }

  /**
   * Exactly when an expired token can still be confirmed, lease or no lease:
   * some body judged it before and has yet to write. Once no such body is
   * left, no go-ahead is ever given.
   */
  lemma ExpiredConfirmsIffJudgedBefore(now: int, w: PendingWrite, past: seq<Event>)
    requires Run(Suspended(now, w), past).now > w.expiresAt
    ensures var s := Run(Suspended(now, w), past);
            (exists events :: Run(s, events).followed != s.followed) <==> Confirming(s)
  {
    var s := Run(Suspended(now, w), past);
    RunKeepsOneExpiry(Suspended(now, w), past);
    if Confirming(s) {
      var c :| c in s.callers && AboutToConfirm(s.callers[c]);
      var t := Step(s, Write(c));
      assert [Write(c)][1..] == [];
      assert Run(s, [Write(c)]) == t;
      assert c in t.followed;
      assert c in s.followed ==> PastBody(s.callers[c]);
      assert c !in s.followed;
      assert Run(s, [Write(c)]).followed != s.followed;
    } else {
      forall events ensures Run(s, events).followed == s.followed {
        ExpiredStaysExpired(s, events);
      }
    }
  }

  /** Only a cancel or its expiry takes the record away. */
  predicate TokenKept(s: Guard) {
    s.token == None ==> s.cancelled || s.now > s.origin.expiresAt
  }

  lemma StepKeepsToken(s: Guard, e: Event)
    requires OneExpiry(s) && TokenKept(s)
    ensures TokenKept(Step(s, e))
  {
    hide Judged, HighRisk, PcExpiry, Held;
  }

  /** Before expiry an unspent go-ahead means a confirmed record is there. */
  lemma SpenderHasConfirmedToken(s: Guard, c: CallerId)
    requires Inv(s) && TokenKept(s) && OneExpiry(s) && s.now <= s.origin.expiresAt
    requires c in s.callers && Spender(s.callers[c])
    ensures LiveToken(s).Some? && LiveToken(s).value.status == Confirmed && SameToken(LiveToken(s).value, s.origin)
  {
    hide PcInv, Followed, HighRisk;
  }

  // ---- the lock --------------------------------------------------------------

  /** Needs no lease: a live lock only ever goes away by its owner's own release or by time. */
  lemma OnlyTheOwnerFreesALock(s: Guard, e: Event)
    requires Held(s) && Step(s, e).lock != s.lock
    ensures e == Release(s.lock.value.owner)
  {
  }

  lemma {:induction false} ClockNeverBack(s: Guard, events: seq<Event>)
    ensures s.now <= Run(s, events).now
    decreases |events|
  {
    if events != [] {
      ClockNeverBack(Step(s, events[0]), events[1..]);
    }
  }

  /**
   * Until its lease is over a lock stays with its owner through any run in
   * which that owner does not release: no release of another, however late,
   * and no other attempt to take it changes anything.
   */
  lemma {:induction false} LeaseIsExclusive(s: Guard, events: seq<Event>)
    requires Held(s) && Release(s.lock.value.owner) !in events
    ensures Run(s, events).now < s.lock.value.expiresAt ==> Run(s, events).lock == s.lock
    decreases |events|
  {
    if events != [] {
      var t := Step(s, events[0]);
      assert events[0] != Release(s.lock.value.owner);
      if t.lock != s.lock {
        OnlyTheOwnerFreesALock(s, events[0]);
      } else if Held(t) {
        LeaseIsExclusive(t, events[1..]);
      } else {
        ClockNeverBack(t, events[1..]);
      }
    }
  }

  /** After the reset has landed the token can be confirmed again. */
  lemma ResetReopensToken(s: Guard, c: CallerId, customer: string)
    requires c in s.callers && s.callers[c] == Answered(Go)
    requires LiveToken(s).Some? && LiveToken(s).value.status == Confirmed
    requires LiveToken(s).value.customer == "" || LiveToken(s).value.customer == customer
    ensures var s' := Step(Step(s, ResetLoad(c)), ResetWrite(c));
            && LiveToken(s').Some?
            && s'.goAheads == 0 && s'.askedBy == None
            && var w := LiveToken(s).value;
               if w.risk == High || w.needsReview then Judged(LiveToken(s'), customer).AskAgain?
               else Judged(LiveToken(s'), customer).GoAhead?
  {
    var s1 := Step(s, ResetLoad(c));
    assert s1.callers[c] == Resetting(s.token.value);
  }

  /** Both bodies have judged the pending token: the first one's lease has lapsed. */
  function TwoBodies(w: PendingWrite, put: Change): Guard {
    Suspended(0, w).(
      now := LEASE_MS,
      lock := Some(Lock(1, LEASE_MS + LEASE_MS)),
      callers := map[0 := Saving(put, 0, 0), 1 := Saving(put, LEASE_MS, LEASE_MS)])
  }

  lemma {:induction false} RunSplit(s: Guard, a: seq<Event>, b: seq<Event>)
    ensures Run(s, a + b) == Run(Run(s, a), b)
    decreases |a|
  {
    if a == [] {
      assert a + b == b;
    } else {
      assert (a + b)[1..] == a[1..] + b;
      RunSplit(Step(s, a[0]), a[1..], b);
    }
  }

  function ChangeOf(v: Verdict): Change
    requires !v.Refuse?
  {
    if v.AskAgain? then PutFirst(v.first) else PutConfirmed(v.confirmed)
  }

  function AnswerOf(v: Verdict): Answer
    requires !v.Refuse?
  {
    if v.AskAgain? then SecondNeeded else Go
  }

  /** A caller that meets no live lock acquires it and judges the token. */
  lemma JudgesAlone(s: Guard, c: CallerId, customer: string)
    requires c !in s.callers && !Held(s) && !Judged(LiveToken(s), customer).Refuse?
    ensures Run(s, [Ask(c, ConfirmOp(customer)), Acquire(c), Load(c)])
         == At(s, c, Saving(ChangeOf(Judged(LiveToken(s), customer)), s.now, s.now)).(lock := Some(Lock(c, s.now + LEASE_MS)))
  {
    var change := ChangeOf(Judged(LiveToken(s), customer));
    var events := [Ask(c, ConfirmOp(customer)), Acquire(c), Load(c)];
    var s1 := At(s, c, Asking(ConfirmOp(customer)));
    var s2 := At(s1, c, Holding(ConfirmOp(customer), s.now)).(lock := Some(Lock(c, s.now + LEASE_MS)));
    var s3 := At(s2, c, Saving(change, s.now, s.now));
    assert LiveToken(s2) == LiveToken(s);
    hide Judged, HighRisk;
    assert Step(s2, events[2]) == s3;
    assert Run(s2, events[2..]) == s3;
    assert Run(s1, events[1..]) == s3 by { assert events[1..][1..] == events[2..]; }
    assert s3.callers == s.callers[c := Saving(change, s.now, s.now)];
  }

  /** One confirm from beginning to end. */
  function Confirm(c: CallerId, customer: string): seq<Event> {
    [Ask(c, ConfirmOp(customer)), Acquire(c), Load(c), Write(c), Release(c)]
  }

  /** The confirms it takes: two callers for a high-risk token, one for any other. */
  function Confirms(highRisk: bool, d: CallerId, e: CallerId, customer: string): seq<Event> {
    if highRisk then Confirm(d, customer) + Confirm(e, customer) else Confirm(e, customer)
  }

  /** The second half: the owner of a live lock writes what it judged and lets go. */
  lemma WritesAndLeaves(s: Guard, c: CallerId, change: Change)
    requires c in s.callers && s.callers[c] == Saving(change, s.now, s.now) && !change.DeleteCancelled?
    requires s.lock == Some(Lock(c, s.now + LEASE_MS))
    ensures var s' := Run(s, [Write(c), Release(c)]);
            && s'.callers == s.callers[c := Answered(if change.PutFirst? then SecondNeeded else Go)]
            && s'.lock == None && s'.now == s.now && s'.token == Some(change.w)
  {
    var events := [Write(c), Release(c)];
    var s1 := StepWrite(s, c, change, s.now, s.now);
    var s2 := StepRelease(s1, c, s1.callers[c].answer);
    assert Step(s, events[0]) == s1 && Step(s1, events[1]) == s2;
    assert s2.callers == s.callers[c := Answered(s1.callers[c].answer)];
    hide Step, StepWrite, StepRelease;
    assert events[1..] == [Release(c)] && events[1..][1..] == [];
    assert Run(s1, events[1..]) == s2;
  }

  lemma ConfirmsAlone(s: Guard, c: CallerId, customer: string)
    requires c !in s.callers && !Held(s) && !Judged(LiveToken(s), customer).Refuse?
    ensures var v := Judged(LiveToken(s), customer);
            var s' := Run(s, Confirm(c, customer));
            && s'.callers == s.callers[c := Answered(AnswerOf(v))]
            && s'.lock == None && s'.now == s.now && s'.token == Some(ChangeOf(v).w)
  {
    var v := Judged(LiveToken(s), customer);
    var first, last := [Ask(c, ConfirmOp(customer)), Acquire(c), Load(c)], [Write(c), Release(c)];
    JudgesAlone(s, c, customer);
    RunSplit(s, first, last);
    assert first + last == Confirm(c, customer);
    hide Judged, HighRisk, LiveToken, Run;
    WritesAndLeaves(Run(s, first), c, ChangeOf(v));
  }

  /** On a pending token the confirms it takes end in a go-ahead. */
  lemma PendingIsConfirmable(s: Guard, d: CallerId, e: CallerId, customer: string)
    requires d !in s.callers && e !in s.callers && d != e && !Held(s)
    requires LiveToken(s).Some? && LiveToken(s).value.status == Pending
    requires LiveToken(s).value.customer == "" || LiveToken(s).value.customer == customer
    ensures var w := LiveToken(s).value;
            var s' := Run(s, Confirms(w.risk == High || w.needsReview, d, e, customer));
            e in s'.callers && s'.callers[e] == Answered(Go)
  {
    var w := LiveToken(s).value;
    if HighRisk(w) {
      var first := Confirm(d, customer);
      ConfirmsAlone(s, d, customer);
      var s1 := Run(s, first);
      assert LiveToken(s1) == Some(w.(status := FirstConfirmed, confirmCount := 1));
      assert !Held(s1) && e !in s1.callers;
      hide Run, Confirm;
      ConfirmsAlone(s1, e, customer);
      RunSplit(s, first, Confirm(e, customer));
    } else {
      ConfirmsAlone(s, e, customer);
    }
  }

  lemma BothBodiesWrite(w: PendingWrite, put: Change)
    requires put.PutConfirmed?
    ensures Run(TwoBodies(w, put), [Write(0), Write(1)]).goAheads == 2
  {
    var writes := [Write(0), Write(1)];
    var s := TwoBodies(w, put);
    var s1 := StepWrite(s, 0, put, 0, 0);
    assert Step(s, Write(0)) == s1;
    assert writes[1..] == [Write(1)] && writes[1..][1..] == [];
    assert Run(s1, writes[1..]) == StepWrite(s1, 1, put, LEASE_MS, LEASE_MS);
  }

  lemma SecondBodyEnters(w: PendingWrite, put: Change)
    requires w.status == Pending && !HighRisk(w) && w.customer == "" && LEASE_MS <= w.expiresAt
    requires put == PutConfirmed(w.(status := Confirmed, confirmCount := w.confirmCount + 1))
    ensures Run(Suspended(0, w), [Ask(0, ConfirmOp("")), Acquire(0), Load(0)] + [Tick(LEASE_MS)]
                                 + [Ask(1, ConfirmOp("")), Acquire(1), Load(1)]) == TwoBodies(w, put)
  {
    var first := [Ask(0, ConfirmOp("")), Acquire(0), Load(0)];
    var second := [Ask(1, ConfirmOp("")), Acquire(1), Load(1)];
    JudgesAlone(Suspended(0, w), 0, "");
    var s1 := Run(Suspended(0, w), first);
    var lapsed := s1.(now := LEASE_MS);
    assert Run(s1, [Tick(LEASE_MS)]) == lapsed by {
      assert [Tick(LEASE_MS)][1..] == [];
    }
    RunSplit(Suspended(0, w), first, [Tick(LEASE_MS)]);
    JudgesAlone(lapsed, 1, "");
    RunSplit(Suspended(0, w), first + [Tick(LEASE_MS)], second);
    hide Run;
    assert Run(lapsed, second) == TwoBodies(w, put);
  }

  /** Without the lease the theorem fails: a body outlives its lock and two callers go ahead. */
  lemma LapsedLeaseDoublesGoAhead(w: PendingWrite)
    requires w.status == Pending && !HighRisk(w) && w.customer == "" && LEASE_MS <= w.expiresAt
    ensures exists events :: Run(Suspended(0, w), events).goAheads == 2
  {
    var put := PutConfirmed(w.(status := Confirmed, confirmCount := w.confirmCount + 1));
    var lapse := [Ask(0, ConfirmOp("")), Acquire(0), Load(0)] + [Tick(LEASE_MS)] + [Ask(1, ConfirmOp("")), Acquire(1), Load(1)];
    var writes := [Write(0), Write(1)];
    hide *;
    SecondBodyEnters(w, put);
    BothBodiesWrite(w, put);
    RunSplit(Suspended(0, w), lapse, writes);
    assert Run(Suspended(0, w), lapse + writes).goAheads == 2;
  }
}
