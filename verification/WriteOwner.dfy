/**
 * Who may confirm: a write suspended by a customer is confirmed, and hence
 * executed, at that customer's own word only
 * (src/brain/write-guard.service.ts, src/brain/confirmation.service.ts).
 *
 * What a caller asked for is read off the events of the run, not off the
 * state. No lease is assumed.
 */
module WriteOwner {
  import opened Common
  import opened WriteGuard
  import P = WriteGuardProtocol
  import G = GuardedWrite

  type Asks = map<P.CallerId, P.Op>

  function Noted(asks: Asks, e: P.Event): Asks {
    if e.Ask? && e.c !in asks then asks[e.c := e.op] else asks
  }

  /** What each caller asked for first. */
  function NotedAll(asks: Asks, events: seq<P.Event>): Asks
    decreases |events|
  {
    if events == [] then asks else NotedAll(Noted(asks, events[0]), events[1..])
  }

  /** The caller asked to confirm, as the owner if there is one. */
  predicate AskedAsOwner(asks: Asks, c: P.CallerId, owner: string) {
    c in asks && asks[c].ConfirmOp? && (owner != "" ==> asks[c].customer == owner)
  }

  predicate PcOwned(pc: P.Pc, asks: Asks, c: P.CallerId, owner: string) {
    match pc
    case Asking(op) => c in asks && asks[c] == op
    case Holding(op, _) => c in asks && asks[c] == op
    case Saving(change, _, _) =>
      !change.DeleteCancelled? ==> change.w.customer == owner && AskedAsOwner(asks, c, owner)
    case Leaving(answer, _) => answer == P.SecondNeeded || answer == P.Go ==> AskedAsOwner(asks, c, owner)
    case Answered(answer) => answer == P.SecondNeeded || answer == P.Go ==> AskedAsOwner(asks, c, owner)
    case Resetting(loaded) => loaded.customer == owner
    case ResetDone => true
  }

  predicate Owned(s: P.Guard, asks: Asks) {
    && asks.Keys == s.callers.Keys
    && (s.token.Some? ==> s.token.value.customer == s.origin.customer)
    && (forall c | c in s.callers :: PcOwned(s.callers[c], asks, c, s.origin.customer))
    && (forall c | c in s.followed :: AskedAsOwner(asks, c, s.origin.customer))
  }

  lemma MoveKeepsOwned(s: P.Guard, t: P.Guard, asks: Asks, c: P.CallerId)
    requires Owned(s, asks) && c in s.callers && c in t.callers
    requires t.callers == s.callers[c := t.callers[c]] && t.origin == s.origin
    requires t.token.Some? ==> t.token.value.customer == s.origin.customer
    requires PcOwned(t.callers[c], asks, c, s.origin.customer)
    requires forall d | d in t.followed :: d in s.followed || (d == c && AskedAsOwner(asks, c, s.origin.customer))
    ensures Owned(t, asks)
  {
    hide PcOwned, AskedAsOwner;
  }

  /** A body that goes on to save has judged the token for its owner. */
  lemma LoadedOwned(s: P.Guard, asks: Asks, c: P.CallerId)
    requires c in s.callers && s.callers[c].Holding? && PcOwned(s.callers[c], asks, c, s.origin.customer)
    requires s.token.Some? ==> s.token.value.customer == s.origin.customer
    ensures var t := P.Step(s, P.Load(c));
            && c in t.callers && PcOwned(t.callers[c], asks, c, s.origin.customer)
            && (t.token == s.token || t.token == None)
  {
    var t := P.StepLoad(s, c, s.callers[c].op, s.callers[c].since);
    assert P.Step(s, P.Load(c)) == t;
    hide P.Step;
  }

  lemma LoadKeepsOwned(s: P.Guard, asks: Asks, c: P.CallerId)
    requires Owned(s, asks)
    ensures Owned(P.Step(s, P.Load(c)), asks)
  {
    if c in s.callers && s.callers[c].Holding? {
      P.MovesOne(s, P.Load(c));
      LoadedOwned(s, asks, c);
      hide P.Step, PcOwned;
      MoveKeepsOwned(s, P.Step(s, P.Load(c)), asks, c);
    }
  }

  lemma WriteKeepsOwned(s: P.Guard, asks: Asks, c: P.CallerId)
    requires Owned(s, asks)
    ensures Owned(P.Step(s, P.Write(c)), asks)
  {
    if c in s.callers && s.callers[c].Saving? {
      var t := P.StepWrite(s, c, s.callers[c].change, s.callers[c].since, s.callers[c].judgedAt);
      assert P.Step(s, P.Write(c)) == t && t.callers == s.callers[c := t.callers[c]];
      assert PcOwned(s.callers[c], asks, c, s.origin.customer);
      hide P.Step;
      MoveKeepsOwned(s, t, asks, c);
    }
  }

  /** The caller's other steps. */
  lemma MovedOwned(s: P.Guard, asks: Asks, e: P.Event)
    requires e.Acquire? || e.Release? || e.ResetLoad? || e.ResetWrite?
    requires e.c in s.callers && PcOwned(s.callers[e.c], asks, e.c, s.origin.customer)
    requires s.token.Some? ==> s.token.value.customer == s.origin.customer
    ensures var t := P.Step(s, e);
            && e.c in t.callers && PcOwned(t.callers[e.c], asks, e.c, s.origin.customer)
            && (t.token.Some? ==> t.token.value.customer == s.origin.customer)
  {
    hide P.Held, AskedAsOwner;
  }

  lemma AskKeepsOwned(s: P.Guard, asks: Asks, e: P.Event)
    requires Owned(s, asks) && e.Ask?
    ensures Owned(P.Step(s, e), Noted(asks, e))
  {
    if e.c !in s.callers {
      var t := P.At(s, e.c, P.Asking(e.op));
      assert P.Step(s, e) == t;
      hide P.Step;
      forall d | d in t.callers ensures PcOwned(t.callers[d], asks[e.c := e.op], d, t.origin.customer) {
        if d != e.c {
          assert PcOwned(s.callers[d], asks, d, s.origin.customer);
        }
      }
    }
  }

  lemma StepKeepsOwned(s: P.Guard, asks: Asks, e: P.Event)
    requires Owned(s, asks)
    ensures Owned(P.Step(s, e), Noted(asks, e)) && P.Step(s, e).origin == s.origin
  {
    P.StepKeepsOrigin(s, e);
    match e
    case Ask(_, _) => AskKeepsOwned(s, asks, e);
    case Load(c) => LoadKeepsOwned(s, asks, c);
    case Write(c) => WriteKeepsOwned(s, asks, c);
    case Evict => OnlyTokenDrops(s, P.Step(s, e), asks);
    case Tick(_) => OnlyTokenDrops(s, P.Step(s, e), asks);
    case _ =>
      if e.c in s.callers {
        P.MovesOne(s, e);
        MovedOwned(s, asks, e);
        hide P.Step, PcOwned, AskedAsOwner;
        if P.Step(s, e).callers == s.callers {
          assert s.callers == s.callers[e.c := s.callers[e.c]];
        }
        MoveKeepsOwned(s, P.Step(s, e), asks, e.c);
      }
  }

  lemma OnlyTokenDrops(s: P.Guard, t: P.Guard, asks: Asks)
    requires Owned(s, asks) && t.callers == s.callers && t.followed == s.followed && t.origin == s.origin
    requires t.token == s.token || t.token == None
    ensures Owned(t, asks)
  {
    hide PcOwned, AskedAsOwner;
  }

  lemma {:induction false} RunKeepsOwned(s: P.Guard, asks: Asks, events: seq<P.Event>)
    requires Owned(s, asks)
    ensures Owned(P.Run(s, events), NotedAll(asks, events)) && P.Run(s, events).origin == s.origin
    decreases |events|
  {
    hide Owned, Noted, P.Step;
    if events != [] {
      StepKeepsOwned(s, asks, events[0]);
      RunKeepsOwned(P.Step(s, events[0]), Noted(asks, events[0]), events[1..]);
    }
  }

  lemma BeginsOwned(now: int, w: PendingWrite)
    ensures Owned(P.Suspended(now, w), map[])
  {
  }

  /**
   * Over every run: whoever went ahead, and whoever was told to confirm again,
   * asked to confirm and, if the write belongs to a customer, asked as that
   * customer.
   */
  lemma OnlyTheCustomerConfirms(now: int, w: PendingWrite, events: seq<P.Event>, c: P.CallerId)
    requires var s := P.Run(P.Suspended(now, w), events);
             c in s.followed || (c in s.callers && P.ToldToAskAgain(s.callers[c]))
    ensures var asks := NotedAll(map[], events);
            && c in asks && asks[c].ConfirmOp?
            && (w.customer != "" ==> asks[c] == P.ConfirmOp(w.customer))
  {
    BeginsOwned(now, w);
    RunKeepsOwned(P.Suspended(now, w), map[], events);
    var s := P.Run(P.Suspended(now, w), events);
    hide P.Run, NotedAll;
    if c in s.callers {
      assert PcOwned(s.callers[c], NotedAll(map[], events), c, w.customer);
    }
  }

  /** A live write with another customer's name on it refuses, whatever its state, and stays as it is. */
  lemma StrangerIsRefused(s: P.Guard, c: P.CallerId, customer: string)
    requires c in s.callers && s.callers[c].Holding? && s.callers[c].op == P.ConfirmOp(customer)
    requires s.token.Some? && s.now <= s.token.value.expiresAt
    requires s.token.value.customer != "" && s.token.value.customer != customer
    ensures P.Step(s, P.Load(c)) == s.(callers := s.callers[c := P.Leaving(P.Refused, s.callers[c].since)])
  {
  }

  // ---- to the execution -------------------------------------------------------

  /** What each caller asked the guard for first. */
  function SystemAsks(asks: Asks, events: seq<G.Event>): Asks
    decreases |events|
  {
    if events == [] then asks
    else SystemAsks(if events[0].OnGuard? then Noted(asks, events[0].guardEvent) else asks, events[1..])
  }

  /** Whatever record a store brings up is still the same customer's. */
  predicate KeepsCustomer(e: G.Event, owner: string) {
    e.Failover? && e.token.Some? ==> e.token.value.customer == owner
  }

  lemma SystemStepKeepsOwned(s: G.System, asks: Asks, e: G.Event)
    requires Owned(s.guard, asks) && KeepsCustomer(e, s.guard.origin.customer)
    ensures Owned(G.Step(s, e).guard, if e.OnGuard? then Noted(asks, e.guardEvent) else asks)
    ensures G.Step(s, e).guard.origin == s.guard.origin
  {
    match e
    case OnGuard(g) =>
      if g.Tick? || (g.ResetLoad? && !G.EndedBadly(s.gate, g.c)) {
      } else {
        hide Owned, P.Step;
        StepKeepsOwned(s.guard, asks, g);
      }
    case Tick(now) =>
      hide Owned, P.Step;
      StepKeepsOwned(s.guard, asks, P.Tick(now));
    case Failover(_) => hide PcOwned, AskedAsOwner;
    case _ =>
  }

  lemma {:induction false} SystemKeepsOwned(s: G.System, asks: Asks, events: seq<G.Event>)
    requires Owned(s.guard, asks) && forall i | 0 <= i < |events| :: KeepsCustomer(events[i], s.guard.origin.customer)
    ensures Owned(G.Run(s, events).guard, SystemAsks(asks, events))
    ensures G.Run(s, events).guard.origin == s.guard.origin
    decreases |events|
  {
    hide Owned, G.Step, KeepsCustomer;
    if events != [] {
      var e := events[0];
      SystemStepKeepsOwned(s, asks, e);
      forall i | 0 <= i < |events[1..]| ensures KeepsCustomer(events[1..][i], s.guard.origin.customer) {
        assert events[1..][i] == events[i + 1];
      }
      SystemKeepsOwned(G.Step(s, e), if e.OnGuard? then Noted(asks, e.guardEvent) else asks, events[1..]);
    }
  }

  /**
   * End to end: every call of a customer's write that reaches the gate, and
   * so every execution, was confirmed by that customer; and so was the first
   * confirm it followed, if it followed one.
   */
  lemma OnlyTheCustomerExecutes(now: int, w: PendingWrite, events: seq<G.Event>, c: G.CallerId)
    requires w.customer != "" && forall i | 0 <= i < |events| :: KeepsCustomer(events[i], w.customer)
    requires c in G.Run(G.Start(now, w), events).gate.callers
    ensures var asks := SystemAsks(map[], events);
            var s := G.Run(G.Start(now, w), events);
            && c in asks && asks[c] == P.ConfirmOp(w.customer)
            && c in s.guard.followed
            && (w.status == Pending && (w.risk == High || w.needsReview) && G.GuardKeptRun(G.Start(now, w), events) ==>
                  var d := s.guard.followed[c].asked;
                  d.Some? && d.value != c && d.value in asks && asks[d.value] == P.ConfirmOp(w.customer))
  {
    var s := G.Run(G.Start(now, w), events);
    var asks := SystemAsks(map[], events);
    BeginsOwned(now, w);
    SystemKeepsOwned(G.Start(now, w), map[], events);
    G.ExecutionNeedsGoAhead(G.Start(now, w), events);
    hide G.Run, SystemAsks, G.GuardKeptRun;
    assert AskedAsOwner(asks, c, w.customer);
    if w.status == Pending && (w.risk == High || w.needsReview) && G.GuardKeptRun(G.Start(now, w), events) {
      G.HighRiskExecutionIsSeconded(now, w, events, c);
      var d := s.guard.followed[c].asked.value;
      assert PcOwned(s.guard.callers[d], asks, d, w.customer);
    }
  }
}
