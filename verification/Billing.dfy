/**
 * Concurrent deduction from one tenant's billing row
 * (src/tenant/billing.service.ts): each call reads a snapshot, then runs one
 * or two atomic UPDATEs, and any number of calls interleave.
 */
module Billing {
  import opened Common

  datatype Plan = Monthly | Metered

  datatype Account = Account(enabled: bool, plan: Plan, price: real, free: int, balance: real)

  datatype Call = Call(tokens: nat, chats: nat)

  /** `found` is the free count the UPDATE met, `cost` what the balance was charged. */
  datatype Outcome = Ok(found: int) | OkBalance(cost: real) | Skipped | Fail

  datatype Phase = Waiting | Read(snapshot: Account) | Missed(snapshot: Account) | Done(outcome: Outcome)

  function Cost(price: real, tokens: nat): real {
    price * (tokens as real) / 1000.0
  }

  function Greatest(x: real, y: real): real {
    if x >= y then x else y
  }

  // ---- one call at a time ------------------------------------------------------

  /** UPDATE ... SET free = GREATEST(free - chats, 0) WHERE free > 0 */
  function FreeTaken(a: Account, chats: nat): Account {
    if a.free > 0 then a.(free := Max(a.free - chats, 0)) else a
  }

  /** UPDATE ... SET balance = GREATEST(balance - cost, 0) */
  function Charged(a: Account, cost: real): Account {
    a.(balance := Greatest(a.balance - cost, 0.0))
  }

  class BillingService {
    var account: Account

    constructor (initial: Account)
      ensures account == initial
    {
      account := initial;
    }

    method TakeFree(chats: nat) returns (affectedRows: nat)
      modifies this
      ensures account == FreeTaken(old(account), chats)
      ensures account == old(account).(free := if old(account).free <= 0 then old(account).free
                                               else if old(account).free <= chats then 0 else old(account).free - chats)
      ensures affectedRows == if old(account).free > 0 then 1 else 0
    {
      affectedRows := 0;
      if account.free > 0 {
        account := account.(free := Max(account.free - chats, 0));
        affectedRows := 1;
      }
    }

    method Charge(cost: real)
      modifies this
      ensures account == Charged(old(account), cost)
      ensures account == old(account).(balance := if old(account).balance <= cost then 0.0 else old(account).balance - cost)
    {
      account := account.(balance := Greatest(account.balance - cost, 0.0));
    }

    /** A call nobody interleaves with does what the three steps of the protocol do. */
    method Deduct(call: Call) returns (outcome: Outcome)
      modifies this
      ensures var end := Run(State(old(account), [Waiting]), [Advance(0), Advance(0), Advance(0)], [call]);
              account == end.account && Done(outcome) == end.phases[0]
      // who pays how, on the account as it was
      ensures var was := old(account);
              if !was.enabled then outcome == Skipped && account == was
              else if was.free > 0 then
                outcome == Ok(was.free)
                && account == was.(free := if was.free <= call.chats then 0 else was.free - call.chats)
              else if was.plan == Monthly then outcome == Skipped && account == was
              else
                var cost := was.price * call.tokens as real / 1000.0;
                outcome == OkBalance(cost)
                && account == was.(balance := if was.balance <= cost then 0.0 else was.balance - cost)
    {
      var billing := account;
      ghost var s := State(account, [Waiting]);
      RunOfThree(s, call);
      if !billing.enabled {
        return Skipped;
      }
      var affected := TakeFree(call.chats);
      if affected > 0 {
        return Ok(billing.free);
      }
      if billing.plan != Monthly {
        var cost := Cost(billing.price, call.tokens);
        Charge(cost);
        return OkBalance(cost);
      }
      return Skipped;
    }
  }

  // ---- any interleaving -----------------------------------------------------------

  datatype State = State(account: Account, phases: seq<Phase>)

  /** Advance one call by one atomic step, let it die of a database error, or change the plan. */
  datatype Event = Advance(i: nat) | Crash(i: nat) | Reprice(enabled: bool, plan: Plan, price: real)

  function Advanced(s: State, i: nat, call: Call): (t: State)
    requires i < |s.phases|
    ensures |t.phases| == |s.phases|
  {
    match s.phases[i]
    case Waiting =>
      s.(phases := s.phases[i := if s.account.enabled then Read(s.account) else Done(Skipped)])
    case Read(snapshot) =>
      if s.account.free > 0
      then State(FreeTaken(s.account, call.chats), s.phases[i := Done(Ok(s.account.free))])
      else s.(phases := s.phases[i := Missed(snapshot)])
    case Missed(snapshot) =>
      if snapshot.plan != Monthly
      then
        var cost := Cost(snapshot.price, call.tokens);
        State(Charged(s.account, cost), s.phases[i := Done(OkBalance(cost))])
      else s.(phases := s.phases[i := Done(Skipped)])
    case Done(_) => s
  }

  function Step(s: State, e: Event, calls: seq<Call>): (t: State)
    requires |s.phases| == |calls|
    ensures |t.phases| == |calls|
  {
    match e
    case Advance(i) => if i < |calls| then Advanced(s, i, calls[i]) else s
    case Crash(i) => if i < |calls| && !s.phases[i].Done? then s.(phases := s.phases[i := Done(Fail)]) else s
    case Reprice(enabled, plan, price) => s.(account := s.account.(enabled := enabled, plan := plan, price := price))
  }

  function Run(s: State, events: seq<Event>, calls: seq<Call>): (t: State)
    requires |s.phases| == |calls|
    ensures |t.phases| == |calls|
    decreases |events|
  {
    if events == [] then s else Run(Step(s, events[0], calls), events[1..], calls)
  }

  lemma RunOfThree(s: State, call: Call)
    requires |s.phases| == 1
    ensures Run(s, [Advance(0), Advance(0), Advance(0)], [call])
         == Advanced(Advanced(Advanced(s, 0, call), 0, call), 0, call)
  {
    var calls, e := [call], Advance(0);
    var s1 := Step(s, e, calls);
    var s2 := Step(s1, e, calls);
    assert [e, e, e][1..] == [e, e] && [e, e][1..] == [e] && [e][1..] == [];
    assert Run(s2, [e], calls) == Step(s2, e, calls);
    assert Run(s1, [e, e], calls) == Run(s2, [e], calls);
  }

  // ---- sums over the calls ----------------------------------------------------------

  function Taken(p: Phase): int {
    if p.Done? && p.outcome.Ok? then 1 else 0
  }

  /** Chats served for free, whatever the count could cover. */
  function Served(p: Phase, call: Call): int {
    if p.Done? && p.outcome.Ok? then call.chats else 0
  }

  /** Chats served for free beyond what was left. */
  function Forgiven(p: Phase, call: Call): int {
    if p.Done? && p.outcome.Ok? then Max(call.chats - p.outcome.found, 0) else 0
  }

  function Paid(p: Phase): real {
    if p.Done? && p.outcome.OkBalance? then p.outcome.cost else 0.0
  }

  datatype Sums = Sums(taken: int, served: int, forgiven: int, paid: real)

  function Part(p: Phase, call: Call): Sums {
    Sums(Taken(p), Served(p, call), Forgiven(p, call), Paid(p))
  }

  function Plus(a: Sums, b: Sums): Sums {
    Sums(a.taken + b.taken, a.served + b.served, a.forgiven + b.forgiven, a.paid + b.paid)
  }

  function Totals(phases: seq<Phase>, calls: seq<Call>): Sums
    requires |phases| == |calls|
  {
    if phases == [] then Sums(0, 0, 0, 0.0)
    else Plus(Part(phases[0], calls[0]), Totals(phases[1..], calls[1..]))
  }

  function Minus(a: Sums, b: Sums): Sums {
    Sums(a.taken - b.taken, a.served - b.served, a.forgiven - b.forgiven, a.paid - b.paid)
  }

  lemma {:induction false} TotalsUpdate(phases: seq<Phase>, calls: seq<Call>, i: nat, p: Phase)
    requires |phases| == |calls| && i < |phases|
    ensures Totals(phases[i := p], calls)
         == Plus(Totals(phases, calls), Minus(Part(p, calls[i]), Part(phases[i], calls[i])))
    decreases |phases|
  {
    hide Part;
    var updated := phases[i := p];
    assert Totals(updated, calls) == Plus(Part(updated[0], calls[0]), Totals(updated[1..], calls[1..]));
    if i == 0 {
      assert updated[1..] == phases[1..];
    } else {
      assert updated[1..] == phases[1..][i - 1 := p];
      TotalsUpdate(phases[1..], calls[1..], i - 1, p);
    }
    hide Totals;
  }

  lemma {:induction false} NothingYet(phases: seq<Phase>, calls: seq<Call>)
    requires |phases| == |calls| && forall i | 0 <= i < |phases| :: phases[i] == Waiting
    ensures Totals(phases, calls) == Sums(0, 0, 0, 0.0)
    decreases |phases|
  {
    if phases != [] {
      NothingYet(phases[1..], calls[1..]);
    }
  }

  // ---- invariant ---------------------------------------------------------------------

  /** Prices on the row and in every snapshot are not negative. */
  predicate PricesSane(s: State) {
    && s.account.price >= 0.0
    && forall i | 0 <= i < |s.phases| ::
         (s.phases[i].Read? || s.phases[i].Missed?) ==> s.phases[i].snapshot.price >= 0.0
  }

  predicate Balanced(s: State, initial: Account, calls: seq<Call>)
    requires |s.phases| == |calls|
  {
    var sums := Totals(s.phases, calls);
    && s.account.free >= 0 && s.account.balance >= 0.0
    && initial.free + sums.forgiven == s.account.free + sums.served
    && s.account.balance == Greatest(initial.balance - sums.paid, 0.0)
  }

  predicate EventSane(e: Event) {
    e.Reprice? ==> e.price >= 0.0
  }

  lemma CostNonNegative(price: real, tokens: nat)
    requires price >= 0.0
    ensures Cost(price, tokens) >= 0.0
  {
    assert price * (tokens as real) >= 0.0;
  }

  /** What one step of one call does to the row is what it adds to the sums. */
  lemma StepShiftsTogether(s: State, e: Event, calls: seq<Call>)
    requires |s.phases| == |calls| && PricesSane(s) && s.account.free >= 0 && s.account.balance >= 0.0
    requires !e.Reprice? && e.i < |calls|
    ensures var t := Step(s, e, calls);
            var shift := Minus(Part(t.phases[e.i], calls[e.i]), Part(s.phases[e.i], calls[e.i]));
            && PricesSane(t) && t.phases == s.phases[e.i := t.phases[e.i]]
            && t.account.free >= 0
            && t.account.free == s.account.free + shift.forgiven - shift.served
            && shift.paid >= 0.0
            && t.account.balance == Greatest(s.account.balance - shift.paid, 0.0)
  {
    if s.phases[e.i].Missed? {
      CostNonNegative(s.phases[e.i].snapshot.price, calls[e.i].tokens);
    }
    hide Cost;
  }

  lemma StepKeepsBalance(s: State, e: Event, initial: Account, calls: seq<Call>)
    requires |s.phases| == |calls| && PricesSane(s) && EventSane(e) && Balanced(s, initial, calls)
    ensures PricesSane(Step(s, e, calls)) && Balanced(Step(s, e, calls), initial, calls)
  {
    if !e.Reprice? && e.i < |calls| {
      var t := Step(s, e, calls);
      StepShiftsTogether(s, e, calls);
      TotalsUpdate(s.phases, calls, e.i, t.phases[e.i]);
      hide Totals, Part, Step, PricesSane;
    }
  }

  lemma {:induction false} RunKeepsBalance(s: State, events: seq<Event>, initial: Account, calls: seq<Call>)
    requires |s.phases| == |calls| && PricesSane(s) && Balanced(s, initial, calls)
    requires forall k | 0 <= k < |events| :: EventSane(events[k])
    ensures Balanced(Run(s, events, calls), initial, calls)
    decreases |events|
  {
    if events != [] {
      StepKeepsBalance(s, events[0], initial, calls);
      hide Balanced, Step, PricesSane;
      RunKeepsBalance(Step(s, events[0], calls), events[1..], initial, calls);
    }
  }

  function Start(initial: Account, calls: seq<Call>): (s: State)
    ensures |s.phases| == |calls|
  {
    State(initial, seq(|calls|, _ => Waiting))
  }

  ghost predicate Sane(initial: Account, events: seq<Event>) {
    && initial.free >= 0 && initial.balance >= 0.0 && initial.price >= 0.0
    && forall k | 0 <= k < |events| :: EventSane(events[k])
  }

  /**
   * Whatever the interleaving, neither counter goes negative, the balance is
   * what the charges leave of it in any order, and the free count falls by
   * what was served less what was forgiven.
   */
  lemma AnyInterleavingBalances(initial: Account, events: seq<Event>, calls: seq<Call>)
    requires Sane(initial, events)
    ensures var end := Run(Start(initial, calls), events, calls);
            var sums := Totals(end.phases, calls);
            && end.account.free >= 0 && end.account.balance >= 0.0
            && end.account.balance == Greatest(initial.balance - sums.paid, 0.0)
            && initial.free + sums.forgiven == end.account.free + sums.served
  {
    var s := Start(initial, calls);
    NothingYet(s.phases, calls);
    RunKeepsBalance(s, events, initial, calls);
  }

  // ---- one chat per call ----------------------------------------------------------------

  predicate FoundSome(phases: seq<Phase>) {
    forall i | 0 <= i < |phases| :: phases[i].Done? && phases[i].outcome.Ok? ==> phases[i].outcome.found > 0
  }

  lemma {:induction false} RunFoundSome(s: State, events: seq<Event>, calls: seq<Call>)
    requires |s.phases| == |calls| && FoundSome(s.phases)
    ensures FoundSome(Run(s, events, calls).phases)
    decreases |events|
  {
    if events != [] {
      assert FoundSome(Step(s, events[0], calls).phases);
      RunFoundSome(Step(s, events[0], calls), events[1..], calls);
    }
  }

  lemma {:induction false} OneChatEach(phases: seq<Phase>, calls: seq<Call>)
    requires |phases| == |calls| && FoundSome(phases)
    requires forall i | 0 <= i < |calls| :: calls[i].chats == 1
    ensures Totals(phases, calls).served == Totals(phases, calls).taken
    ensures Totals(phases, calls).forgiven == 0
    decreases |phases|
  {
    if phases != [] {
      OneChatEach(phases[1..], calls[1..]);
    }
  }

  /** With one chat a call, the initial free count is the final one plus the calls that answered 'ok'. */
  lemma FreeCountIsConserved(initial: Account, events: seq<Event>, calls: seq<Call>)
    requires Sane(initial, events)
    requires forall i | 0 <= i < |calls| :: calls[i].chats == 1
    ensures var end := Run(Start(initial, calls), events, calls);
            initial.free == end.account.free + Totals(end.phases, calls).taken
  {
    AnyInterleavingBalances(initial, events, calls);
    RunFoundSome(Start(initial, calls), events, calls);
    OneChatEach(Run(Start(initial, calls), events, calls).phases, calls);
  }

  // ---- several chats per call: where the law breaks, and exactly where ---------------------

  predicate Covered(p: Phase, call: Call) {
    p.Done? && p.outcome.Ok? ==> p.outcome.found >= call.chats
  }

  predicate AllCovered(phases: seq<Phase>, calls: seq<Call>)
    requires |phases| == |calls|
  {
    forall i | 0 <= i < |calls| :: Covered(phases[i], calls[i])
  }

  lemma CoveredOneByOne(phases: seq<Phase>, calls: seq<Call>)
    requires |phases| == |calls| > 0
    ensures AllCovered(phases, calls) <==> Covered(phases[0], calls[0]) && AllCovered(phases[1..], calls[1..])
  {
    hide Covered;
    var rest, tail := phases[1..], calls[1..];
    if AllCovered(rest, tail) {
      assert forall i | 1 <= i < |calls| :: phases[i] == rest[i - 1] && calls[i] == tail[i - 1];
    } else {
      var i :| 0 <= i < |tail| && !Covered(rest[i], tail[i]);
      assert !Covered(phases[i + 1], calls[i + 1]);
    }
  }

  lemma {:induction false} NothingForgiven(phases: seq<Phase>, calls: seq<Call>)
    requires |phases| == |calls|
    ensures Totals(phases, calls).forgiven >= 0
    ensures Totals(phases, calls).forgiven == 0 <==> AllCovered(phases, calls)
    decreases |phases|
  {
    if phases != [] {
      CoveredOneByOne(phases, calls);
      NothingForgiven(phases[1..], calls[1..]);
      hide AllCovered;
    }
  }

  /**
   * The free count pays for every chat served for free if and only if each
   * such call met a count of at least its own number of chats.
   */
  lemma FreeCountPaysIffCovered(initial: Account, events: seq<Event>, calls: seq<Call>)
    requires Sane(initial, events)
    ensures var end := Run(Start(initial, calls), events, calls);
            initial.free == end.account.free + Totals(end.phases, calls).served
            <==> AllCovered(end.phases, calls)
  {
    hide AllCovered, Totals;
    AnyInterleavingBalances(initial, events, calls);
    NothingForgiven(Run(Start(initial, calls), events, calls).phases, calls);
  }

  lemma AloneTakesTheLastFree(initial: Account, call: Call)
    requires initial.enabled && initial.free > 0
    ensures Run(Start(initial, [call]), [Advance(0), Advance(0), Advance(0)], [call])
         == State(FreeTaken(initial, call.chats), [Done(Ok(initial.free))])
  {
    var s0 := State(initial, [Waiting]);
    assert Start(initial, [call]) == s0;
    RunOfThree(s0, call);
    hide Run;
    var s1 := Advanced(s0, 0, call);
    assert s1 == State(initial, [Read(initial)]);
    var s2 := Advanced(s1, 0, call);
    assert s2.phases == [Done(Ok(initial.free))];
  }

  lemma PlusNothing(a: Sums)
    ensures Plus(a, Sums(0, 0, 0, 0.0)) == a
  {
  }

  lemma TotalsOfOne(p: Phase, call: Call)
    ensures Totals([p], [call]) == Part(p, call)
  {
    hide Part, Plus;
    var phases, calls := [p], [call];
    assert phases[1..] == [] && calls[1..] == [];
    assert Totals(phases, calls) == Plus(Part(p, call), Totals(phases[1..], calls[1..]));
    assert Totals(phases[1..], calls[1..]) == Sums(0, 0, 0, 0.0);
    PlusNothing(Part(p, call));
  }

  /**
   * A lone call of more chats than are left: they are all served, the ones
   * beyond the count are neither counted nor charged to the balance.
   * (For instance three chats against a single free one: two are forgiven.)
   */
  lemma LastFreeChatForgivesTheRest(initial: Account, call: Call)
    requires initial.enabled && 0 < initial.free < call.chats
    ensures var end := Run(Start(initial, [call]), [Advance(0), Advance(0), Advance(0)], [call]);
            && end.account == initial.(free := 0)
            && Totals(end.phases, [call]) == Sums(1, call.chats, call.chats - initial.free, 0.0)
  {
    hide *;
    AloneTakesTheLastFree(initial, call);
    TotalsOfOne(Done(Ok(initial.free)), call);
    PartOfLastFree(initial, call);
  }

  lemma PartOfLastFree(initial: Account, call: Call)
    requires 0 < initial.free < call.chats
    ensures FreeTaken(initial, call.chats) == initial.(free := 0)
    ensures Part(Done(Ok(initial.free)), call) == Sums(1, call.chats, call.chats - initial.free, 0.0)
  {
  }

  /** A database error ends a call that has not finished and touches no money; a change of plan touches no call. */
  lemma EventsFromOutside(s: State, calls: seq<Call>, i: nat, enabled: bool, plan: Plan, price: real)
    requires |s.phases| == |calls| && i < |calls|
    ensures Step(s, Crash(i), calls) == if s.phases[i].Done? then s else s.(phases := s.phases[i := Done(Fail)])
    ensures Step(s, Reprice(enabled, plan, price), calls)
         == State(Account(enabled, plan, price, s.account.free, s.account.balance), s.phases)
  {
  }

  // ---- who is charged, and how much ------------------------------------------------------

  /** What a call's own statements met: the account its SELECT read, the free count its UPDATE found. */
  datatype Seen = Seen(read: Option<Account>, met: Option<int>)

  /** The call's first step reads the account, its second meets the free count. */
  function Looked(seen: Seen, account: Account): Seen {
    if seen.read.None? then seen.(read := Some(account))
    else if seen.met.None? then seen.(met := Some(account.free))
    else seen
  }

  function SeenBy(seen: Seen, s: State, events: seq<Event>, calls: seq<Call>, i: nat): Seen
    requires |s.phases| == |calls|
    decreases |events|
  {
    if events == [] then seen
    else SeenBy(if events[0] == Advance(i) then Looked(seen, s.account) else seen,
                Step(s, events[0], calls), events[1..], calls, i)
  }

  /** How a call must end that has seen this: the price is the one it read. */
  function Due(seen: Seen, call: Call): Option<Outcome> {
    if seen.read.None? then None
    else
      var a := seen.read.value;
      if !a.enabled then Some(Skipped)
      else if seen.met.None? then None
      else if seen.met.value > 0 then Some(Ok(seen.met.value))
      else if a.plan == Monthly then Some(Skipped)
      else Some(OkBalance(Overage(a.price, call.tokens)))
  }

  /** The price of a thousand tokens, for that many. */
  function Overage(price: real, tokens: nat): real {
    price * tokens as real / 1000.0
  }

  lemma CostIsOverage(price: real, tokens: nat)
    ensures Cost(price, tokens) == Overage(price, tokens)
  {
  }

  /** The phase of a call agrees with what it has seen. */
  predicate Explained(p: Phase, seen: Seen, call: Call) {
    match p
    case Waiting => seen == Seen(None, None)
    case Read(a) => seen == Seen(Some(a), None) && a.enabled
    case Missed(a) => seen.read == Some(a) && a.enabled && seen.met.Some? && seen.met.value <= 0
    case Done(Fail) => true
    case Done(outcome) => Due(seen, call) == Some(outcome)
  }

  lemma OwnStepExplained(s: State, calls: seq<Call>, i: nat, seen: Seen)
    requires |s.phases| == |calls| && i < |calls| && Explained(s.phases[i], seen, calls[i])
    ensures Explained(Step(s, Advance(i), calls).phases[i], Looked(seen, s.account), calls[i])
  {
    if s.phases[i].Missed? {
      MissedExplained(s.phases[i].snapshot, seen.met, calls[i]);
      assert seen == Seen(Some(s.phases[i].snapshot), seen.met);
    }
    hide Cost, Due;
    if s.phases[i].Waiting? || s.phases[i].Read? {
      LookedExplained(s.phases[i], s.account, calls[i]);
    } else if s.phases[i].Done? && s.phases[i] != Done(Fail) {
      DueStays(seen, s.account, calls[i]);
    }
  }

  lemma MissedExplained(a: Account, met: Option<int>, call: Call)
    requires a.enabled && met.Some? && met.value <= 0
    ensures Due(Seen(Some(a), met), call)
         == Some(if a.plan == Monthly then Skipped else OkBalance(Cost(a.price, call.tokens)))
  {
    CostIsOverage(a.price, call.tokens);
    hide Cost, Overage;
  }

  lemma LookedExplained(p: Phase, account: Account, call: Call)
    ensures !account.enabled ==> Due(Seen(Some(account), None), call) == Some(Skipped)
    ensures p.Read? && p.snapshot.enabled && account.free > 0 ==>
              Due(Seen(Some(p.snapshot), Some(account.free)), call) == Some(Ok(account.free))
  {
  }

  lemma DueStays(seen: Seen, account: Account, call: Call)
    requires Due(seen, call).Some?
    ensures Due(Looked(seen, account), call) == Due(seen, call)
  {
  }

  lemma OtherStepExplained(s: State, e: Event, calls: seq<Call>, i: nat, seen: Seen)
    requires |s.phases| == |calls| && i < |calls| && Explained(s.phases[i], seen, calls[i]) && e != Advance(i)
    ensures Explained(Step(s, e, calls).phases[i], seen, calls[i])
  {
    hide Due;
  }

  lemma {:induction false} RunExplained(s: State, events: seq<Event>, calls: seq<Call>, i: nat, seen: Seen)
    requires |s.phases| == |calls| && i < |calls| && Explained(s.phases[i], seen, calls[i])
    ensures Explained(Run(s, events, calls).phases[i], SeenBy(seen, s, events, calls, i), calls[i])
    decreases |events|
  {
    if events != [] {
      if events[0] == Advance(i) {
        OwnStepExplained(s, calls, i, seen);
      } else {
        OtherStepExplained(s, events[0], calls, i, seen);
      }
      hide Step, Explained, Looked;
      RunExplained(Step(s, events[0], calls), events[1..], calls, i,
                   if events[0] == Advance(i) then Looked(seen, s.account) else seen);
    }
  }

  /**
   * Under any interleaving: a call is charged only if the account it read was
   * enabled and not on the monthly plan and no free chat was left at its
   * UPDATE, and then exactly its tokens at the price it read; it is free only
   * if a free chat was left; a monthly or disabled account is never charged.
   */
  lemma ChargedByTheRules(initial: Account, events: seq<Event>, calls: seq<Call>, i: nat)
    requires i < |calls|
    ensures var p := Run(Start(initial, calls), events, calls).phases[i];
            var seen := SeenBy(Seen(None, None), Start(initial, calls), events, calls, i);
            && (p.Done? && p.outcome.OkBalance? ==>
                  && seen.read.Some? && seen.read.value.enabled && seen.read.value.plan != Monthly
                  && seen.met.Some? && seen.met.value <= 0
                  && p.outcome.cost == seen.read.value.price * calls[i].tokens as real / 1000.0)
            && (p.Done? && p.outcome.Ok? ==>
                  seen.read.Some? && seen.read.value.enabled && seen.met == Some(p.outcome.found) && p.outcome.found > 0)
            && (p == Done(Skipped) ==>
                  && seen.read.Some?
                  && (!seen.read.value.enabled
                      || (seen.read.value.plan == Monthly && seen.met.Some? && seen.met.value <= 0)))
  {
    RunExplained(Start(initial, calls), events, calls, i, Seen(None, None));
    hide Run, SeenBy, Start;
    var seen := SeenBy(Seen(None, None), Start(initial, calls), events, calls, i);
    assert seen.read.Some? ==>
             Overage(seen.read.value.price, calls[i].tokens) == seen.read.value.price * calls[i].tokens as real / 1000.0;
    hide Overage;
  }

  /** Every call that takes its three steps and does not die ends as it must by what it has seen. */
  lemma ThreeStepsSettle(initial: Account, events: seq<Event>, calls: seq<Call>, i: nat)
    requires i < |calls| && OwnSteps(events, i) >= 3 && Crash(i) !in events
    ensures var p := Run(Start(initial, calls), events, calls).phases[i];
            p.Done? && Due(SeenBy(Seen(None, None), Start(initial, calls), events, calls, i), calls[i]) == Some(p.outcome)
  {
    RunExplained(Start(initial, calls), events, calls, i, Seen(None, None));
    ThreeStepsFinish(Start(initial, calls), events, calls, i);
    NeverDies(Start(initial, calls), events, calls, i);
    hide Run, SeenBy, Due;
  }

  lemma {:induction false} NeverDies(s: State, events: seq<Event>, calls: seq<Call>, i: nat)
    requires |s.phases| == |calls| && i < |calls| && Crash(i) !in events && s.phases[i] != Done(Fail)
    ensures Run(s, events, calls).phases[i] != Done(Fail)
    decreases |events|
  {
    if events != [] {
      assert events[0] in events && forall e | e in events[1..] :: e in events;
      NeverDies(Step(s, events[0], calls), events[1..], calls, i);
    }
  }

  // ---- every call ends one way ---------------------------------------------------------------

  /** A finished call keeps its outcome for ever, and is paid from the free count or from the balance, never both. */
  lemma {:induction false} OutcomesAreFinal(s: State, events: seq<Event>, calls: seq<Call>, i: nat)
    requires |s.phases| == |calls| && i < |calls| && s.phases[i].Done?
    ensures Run(s, events, calls).phases[i] == s.phases[i]
    decreases |events|
  {
    if events != [] {
      OutcomesAreFinal(Step(s, events[0], calls), events[1..], calls, i);
    }
  }

  /** Three steps of its own finish a call, however many steps of others come between. */
  function StepsLeft(p: Phase): nat {
    match p
    case Waiting => 3
    case Read(_) => 2
    case Missed(_) => 1
    case Done(_) => 0
  }

  function OwnSteps(events: seq<Event>, i: nat): nat {
    if events == [] then 0 else (if events[0] == Advance(i) then 1 else 0) + OwnSteps(events[1..], i)
  }

  lemma {:induction false} ThreeStepsFinish(s: State, events: seq<Event>, calls: seq<Call>, i: nat)
    requires |s.phases| == |calls| && i < |calls|
    ensures OwnSteps(events, i) >= StepsLeft(s.phases[i]) ==> Run(s, events, calls).phases[i].Done?
    decreases |events|
  {
    if events != [] {
      ThreeStepsFinish(Step(s, events[0], calls), events[1..], calls, i);
    }
  }
}
