/**
 * All write tokens of a service at once, each call routed to the idempotency
 * row its key material names (src/brain/confirmation.service.ts,
 * src/tools/tool-executor.ts, src/tools/idempotency-gate.service.ts).
 *
 * A call carries the optional explicit key of its caller and whatever
 * arguments it was confirmed with; the tool call id is `confirm-<token>`.
 */
module WriteTokens {
  import opened Common
  import Canonical
  import G = GuardedWrite
  import I = IdempotencyGate
  import K = GateProtocol
  import KM = KeyMaterial
  import P = WriteGuardProtocol
  import WriteGuard

  datatype Call = Call(explicitKey: string, args: seq<Canonical.Member>, keyFields: seq<string>)

  datatype Act = Act(token: string, call: Call, event: G.Event)

  /** Rows no call has touched yet are absent and stand for a gate at its beginning. */
  datatype World = World(guards: map<string, P.Guard>, gates: map<string, K.Sys>, start: int)

  /** Where a call of a token meets its row. */
  function KeyOf(token: string, call: Call): string {
    KM.Material(KM.Input(call.explicitKey, "confirm-" + token, call.args, call.keyFields))
  }

  predicate NoExplicitKey(call: Call) {
    Trim(call.explicitKey) == ""
  }

  /** The key material of a token's calls. */
  function TokenKey(token: string): string {
    "token:" + ("confirm-" + token)
  }

  /** Without an explicit key, all calls of one token share a row and calls of two tokens never do. */
  lemma TokenCallsShareTheirRow(token: string, call: Call, token': string, call': Call)
    requires NoExplicitKey(call) && NoExplicitKey(call')
    ensures KeyOf(token, call) == TokenKey(token)
    ensures KeyOf(token, call) == KeyOf(token', call') <==> token == token'
  {
    ConfirmPrefix(token);
    ConfirmPrefix(token');
    hide KM.Pick, Trim;
    KM.PrefixInjective("token:", "confirm-" + token, "confirm-" + token');
    KM.PrefixInjective("confirm-", token, token');
  }

  lemma ConfirmPrefix(token: string)
    ensures StartsWith("confirm-" + token, "confirm-")
  {
  }

  /** Two explicit keys split one token over two rows: the assumption is needed. */
  lemma ExplicitKeysSplitAToken(token: string, call: Call, call': Call)
    ensures !NoExplicitKey(call) && !NoExplicitKey(call') ==>
              (KeyOf(token, call) == KeyOf(token, call') <==> Trim(call.explicitKey) == Trim(call'.explicitKey))
  {
    hide Trim;
    KM.PrefixInjective("explicit:", Trim(call.explicitKey), Trim(call'.explicitKey));
  }

  function GateOf(w: World, key: string): K.Sys {
    if key in w.gates then w.gates[key] else K.Init(w.start)
  }

  /** One event of one call: on its token's guard and on the row its key names. */
  function Step(w: World, act: Act): World {
    if act.token !in w.guards then w
    else
      var key := KeyOf(act.token, act.call);
      var s := G.Step(G.System(w.guards[act.token], GateOf(w, key)), act.event);
      World(w.guards[act.token := s.guard], w.gates[key := s.gate], w.start)
  }

  function Run(w: World, acts: seq<Act>): World
    decreases |acts|
  {
    if acts == [] then w else Run(Step(w, acts[0]), acts[1..])
  }

  /** The events of one token's calls. */
  function Mine(acts: seq<Act>, token: string): seq<G.Event> {
    if acts == [] then []
    else (if acts[0].token == token then [acts[0].event] else []) + Mine(acts[1..], token)
  }

  ghost predicate NoExplicitKeys(acts: seq<Act>) {
    forall i | 0 <= i < |acts| :: NoExplicitKey(acts[i].call)
  }

  function SystemOf(w: World, token: string): G.System
    requires token in w.guards
  {
    G.System(w.guards[token], GateOf(w, TokenKey(token)))
  }

  /** A step of one token moves that token's system and no other. */
  lemma StepMovesOneToken(w: World, act: Act, token: string)
    requires NoExplicitKey(act.call) && token in w.guards
    ensures var w' := Step(w, act);
            && token in w'.guards && w'.start == w.start
            && SystemOf(w', token) == if act.token == token then G.Step(SystemOf(w, token), act.event) else SystemOf(w, token)
  {
    TokenCallsShareTheirRow(act.token, act.call, token, Call("", [], []));
    assert KeyOf(token, Call("", [], [])) == TokenKey(token) by {
      TokenCallsShareTheirRow(token, Call("", [], []), token, Call("", [], []));
    }
    hide G.Step, KeyOf, TokenKey;
  }

  /**
   * However the calls of many tokens interleave, what happens to one token and
   * its row is a run of that token alone.
   */
  lemma {:induction false} EachTokenRunsAlone(w: World, acts: seq<Act>, token: string)
    requires NoExplicitKeys(acts) && token in w.guards
    ensures token in Run(w, acts).guards
    ensures SystemOf(Run(w, acts), token) == G.Run(SystemOf(w, token), Mine(acts, token))
    decreases |acts|
  {
    if acts != [] {
      assert NoExplicitKey(acts[0].call);
      StepMovesOneToken(w, acts[0], token);
      forall i | 0 <= i < |acts[1..]| ensures NoExplicitKey(acts[1..][i].call) {
        assert acts[1..][i] == acts[i + 1];
      }
      EachTokenRunsAlone(Step(w, acts[0]), acts[1..], token);
      hide Step, SystemOf, G.Step, NoExplicitKey;
      if acts[0].token == token {
        assert Mine(acts, token)[1..] == Mine(acts[1..], token);
      } else {
        assert Mine(acts, token) == Mine(acts[1..], token);
      }
    }
  }

  function Begin(start: int, writes: map<string, WriteGuard.PendingWrite>): World {
    World(map token | token in writes :: P.Suspended(start, writes[token]), map[], start)
  }

  /**
   * End to end, over all tokens, all interleavings, lapsed locks and store
   * failovers, with no explicit key: every call of a token reaches the one row
   * of its key, and the successful executions there never exceed one plus the
   * hazards; under the gate's operating assumptions there is at most one.
   */
  lemma OneSuccessPerConfirmedToken(start: int, writes: map<string, WriteGuard.PendingWrite>, acts: seq<Act>, token: string)
    requires NoExplicitKeys(acts) && token in writes
    ensures forall i | 0 <= i < |acts| :: KeyOf(acts[i].token, acts[i].call) == TokenKey(token) <==> acts[i].token == token
    ensures var gate := GateOf(Run(Begin(start, writes), acts), TokenKey(token));
            && gate.successes <= 1 + gate.hazards
            && (K.AllowedRun(K.Init(start), G.GateView(G.Start(start, writes[token]), Mine(acts, token))) ==>
                  gate.successes <= 1)
  {
    forall i | 0 <= i < |acts|
      ensures KeyOf(acts[i].token, acts[i].call) == TokenKey(token) <==> acts[i].token == token
    {
      TokenCallsShareTheirRow(acts[i].token, acts[i].call, token, Call("", [], []));
      TokenCallsShareTheirRow(token, Call("", [], []), token, Call("", [], []));
    }
    var w := Begin(start, writes);
    EachTokenRunsAlone(w, acts, token);
    assert SystemOf(w, token) == G.Start(start, writes[token]);
    hide Run, KeyOf;
    G.OneSuccessPerToken(start, writes[token], Mine(acts, token));
  }
}
