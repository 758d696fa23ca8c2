/**
 * The three-minute window in which an executed operation can be revoked
 * (src/brain/confirmation.service.ts).
 *
 * Operations are numbered in the order they are registered, which is the
 * order in which the map lists them. `execution` is the real execution an
 * operation was registered for: a replayed result registers the same
 * execution again.
 */
module RevokeWindow {
  import opened Common

  const REVOKE_TTL_MS := 3 * 60 * 1000

  datatype OpStatus = Executed | Revoked

  datatype Operation = Operation(
    execution: nat,
    tenant: string,
    confirmationId: string,
    executedAt: int,
    revokeExpiresAt: int,
    status: OpStatus,
    lastRevokeError: string,
    revokeAttempts: nat)

  type OpId = nat

  type Ops = map<OpId, Operation>

  datatype Check = Revocable | NoRecord | OtherTenant | AlreadyRevoked | WindowOver

  function CanRevoke(ops: Ops, id: OpId, tenant: string, now: int): Check {
    if id !in ops then NoRecord
    else if ops[id].tenant != tenant then OtherTenant
    else if ops[id].status == Revoked then AlreadyRevoked
    else if now > ops[id].revokeExpiresAt then WindowOver
    else Revocable
  }

  function Registered(execution: nat, tenant: string, confirmationId: string, now: int): Operation {
    Operation(execution, tenant, confirmationId, now, now + REVOKE_TTL_MS, Executed, "", 0)
  }

  function Failed(op: Operation, error: string): Operation {
    op.(lastRevokeError := error, revokeAttempts := op.revokeAttempts + 1)
  }

  function Kept(ops: Ops, now: int): Ops {
    map id | id in ops && now <= ops[id].revokeExpiresAt :: ops[id]
  }

  predicate Matches(op: Operation, confirmationId: string, tenant: string) {
    op.confirmationId == confirmationId && op.tenant == tenant && op.status == Executed
  }

  /** The first operation of a confirmation among those numbered below `next`, if there is one. */
  function FirstOf(ops: Ops, next: nat, confirmationId: string, tenant: string): Option<OpId> {
    if next == 0 then None
    else
      var earlier := FirstOf(ops, next - 1, confirmationId, tenant);
      if earlier.Some? then earlier
      else if next - 1 in ops && Matches(ops[next - 1], confirmationId, tenant) then Some(next - 1)
      else None
  }

  class ConfirmationService {
    var executedMap: Ops
    var next: nat

    ghost predicate Valid()
      reads this
    {
      forall id | id in executedMap :: id < next
    }

    constructor ()
      ensures Valid() && executedMap == map[] && next == 0
    {
      executedMap, next := map[], 0;
    }

    method RegisterExecuted(execution: nat, tenant: string, confirmationId: string, now: int) returns (id: OpId)
      requires Valid()
      modifies this
      ensures Valid() && id == old(next) && id !in old(executedMap) && next == old(next) + 1
      ensures executedMap == old(executedMap)[id := Registered(execution, tenant, confirmationId, now)]
      ensures executedMap[id] == Operation(execution, tenant, confirmationId, now, now + 3 * 60 * 1000, Executed, "", 0)
    {
      id := next;
      executedMap :=
        executedMap[id := Operation(execution, tenant, confirmationId, now, now + REVOKE_TTL_MS, Executed, "", 0)];
      next := next + 1;
    }

    /** The first operation still recorded for a confirmation. */
    method GetExecutedByConfirmation(confirmationId: string, tenant: string) returns (found: Option<OpId>)
      requires Valid()
      ensures found == FirstOf(executedMap, next, confirmationId, tenant)
      ensures found.Some? ==>
                && found.value in executedMap
                && executedMap[found.value].confirmationId == confirmationId
                && executedMap[found.value].tenant == tenant && executedMap[found.value].status == Executed
      ensures forall id | id in executedMap && executedMap[id].confirmationId == confirmationId
                          && executedMap[id].tenant == tenant && executedMap[id].status == Executed ::
                found.Some? && found.value <= id
    {
      FirstOfIsFirst(executedMap, next, confirmationId, tenant);
      for id := 0 to next
        invariant FirstOf(executedMap, id, confirmationId, tenant) == None
      {
        if id in executedMap && Matches(executedMap[id], confirmationId, tenant) {
          FirstOfStays(executedMap, id + 1, next, confirmationId, tenant);
          return Some(id);
        }
      }
      return None;
    }

    method MarkRevoked(id: OpId, tenant: string, now: int) returns (ok: bool)
      modifies this`executedMap
      ensures ok == (CanRevoke(old(executedMap), id, tenant, now) == Revocable)
      ensures ok <==> id in old(executedMap) && old(executedMap)[id].tenant == tenant
                      && old(executedMap)[id].status == Executed && now <= old(executedMap)[id].revokeExpiresAt
      ensures executedMap == if ok then old(executedMap) - {id} else old(executedMap)
    {
      if CanRevoke(executedMap, id, tenant, now) != Revocable {
        return false;
      }
      executedMap := executedMap - {id};
      return true;
    }

    method MarkRevokeFailed(id: OpId, tenant: string, error: string, now: int) returns (ok: bool)
      modifies this`executedMap
      ensures ok == (CanRevoke(old(executedMap), id, tenant, now) == Revocable)
      ensures ok <==> id in old(executedMap) && old(executedMap)[id].tenant == tenant
                      && old(executedMap)[id].status == Executed && now <= old(executedMap)[id].revokeExpiresAt
      ensures executedMap == if ok then old(executedMap)[id := Failed(old(executedMap)[id], error)] else old(executedMap)
      ensures ok ==> executedMap[id]
                     == old(executedMap)[id].(lastRevokeError := error, revokeAttempts := old(executedMap)[id].revokeAttempts + 1)
    {
      if CanRevoke(executedMap, id, tenant, now) != Revocable {
        return false;
      }
      var op := executedMap[id];
      op := op.(lastRevokeError := error);
      op := op.(revokeAttempts := op.revokeAttempts + 1);
      executedMap := executedMap[id := op];
      return true;
    }

    /** `guardCleaned` is what the write guard's own clean-up removed. */
    method CleanupExpired(now: int, guardCleaned: nat) returns (cleaned: nat)
      modifies this`executedMap
      ensures executedMap == Kept(old(executedMap), now)
      ensures cleaned == guardCleaned + |old(executedMap)| - |executedMap|
    {
      cleaned := guardCleaned;
      var left := executedMap.Keys;
      while left != {}
        invariant left <= executedMap.Keys
        invariant executedMap == map id | id in old(executedMap)
                    && (id in left || now <= old(executedMap)[id].revokeExpiresAt) :: old(executedMap)[id]
        invariant cleaned == guardCleaned + |old(executedMap)| - |executedMap|
        decreases left
      {
        var id :| id in left;
        if now > executedMap[id].revokeExpiresAt {
          CardinalityWithout(executedMap.Keys, id);
          assert (executedMap - {id}).Keys == executedMap.Keys - {id};
          executedMap := executedMap - {id};
          cleaned := cleaned + 1;
        }
        left := left - {id};
      }
    }
  }

  lemma {:induction false} FirstOfIsFirst(ops: Ops, next: nat, confirmationId: string, tenant: string)
    ensures var found := FirstOf(ops, next, confirmationId, tenant);
            && (found.Some? ==>
                  && found.value < next && found.value in ops && ops[found.value].confirmationId == confirmationId
                  && ops[found.value].tenant == tenant && ops[found.value].status == Executed)
            && (forall id | id in ops && id < next && ops[id].confirmationId == confirmationId
                            && ops[id].tenant == tenant && ops[id].status == Executed ::
                  found.Some? && found.value <= id)
    decreases next
  {
    if next > 0 {
      FirstOfIsFirst(ops, next - 1, confirmationId, tenant);
    }
  }

  lemma {:induction false} FirstOfStays(ops: Ops, n: nat, next: nat, confirmationId: string, tenant: string)
    requires n <= next && FirstOf(ops, n, confirmationId, tenant).Some?
    ensures FirstOf(ops, next, confirmationId, tenant) == FirstOf(ops, n, confirmationId, tenant)
    decreases next
  {
    if n < next {
      FirstOfStays(ops, n, next - 1, confirmationId, tenant);
    }
  }

  // ---- runs -------------------------------------------------------------------

  datatype Event =
    | Register(execution: nat, tenant: string, confirmationId: string, now: int)
    | Revoke(id: OpId, tenant: string, now: int)
    | RevokeFailed(id: OpId, tenant: string, error: string, now: int)
    | Cleanup(now: int)

  datatype Registry = Registry(next: nat, ops: Ops)

  const Nothing := Registry(0, map[])

  function Apply(r: Registry, e: Event): Registry {
    match e
    case Register(execution, tenant, confirmationId, now) =>
      Registry(r.next + 1, r.ops[r.next := Registered(execution, tenant, confirmationId, now)])
    case Revoke(id, tenant, now) =>
      if CanRevoke(r.ops, id, tenant, now) == Revocable then r.(ops := r.ops - {id}) else r
    case RevokeFailed(id, tenant, error, now) =>
      if CanRevoke(r.ops, id, tenant, now) == Revocable then r.(ops := r.ops[id := Failed(r.ops[id], error)]) else r
    case Cleanup(now) => r.(ops := Kept(r.ops, now))
  }

  function Run(r: Registry, events: seq<Event>): Registry
    decreases |events|
  {
    if events == [] then r else Run(Apply(r, events[0]), events[1..])
  }

  /** What the callers of revoke and revoke-failed were told, in order. */
  function Answers(r: Registry, events: seq<Event>): seq<bool>
    decreases |events|
  {
    if events == [] then []
    else
      var e := events[0];
      (if e.Revoke? || e.RevokeFailed? then [CanRevoke(r.ops, e.id, e.tenant, e.now) == Revocable] else [])
      + Answers(Apply(r, e), events[1..])
  }

  function WithoutCleanups(events: seq<Event>): seq<Event> {
    if events == [] then []
    else (if events[0].Cleanup? then [] else [events[0]]) + WithoutCleanups(events[1..])
  }

  predicate Ordered(events: seq<Event>, from: int) {
    events == [] || (from <= events[0].now && Ordered(events[1..], events[0].now))
  }

  function LastTime(events: seq<Event>, from: int): int {
    if events == [] then from else LastTime(events[1..], events[0].now)
  }

  // ---- who may revoke, and when -----------------------------------------------------

  /** Some registration of the run made this record. */
  ghost predicate ComesFrom(op: Operation, events: seq<Event>) {
    exists i | 0 <= i < |events| :: Registers(events[i], op)
  }

  predicate Registers(e: Event, op: Operation) {
    && e.Register?
    && op.execution == e.execution && op.tenant == e.tenant && op.confirmationId == e.confirmationId
    && op.executedAt == e.now && op.revokeExpiresAt == e.now + REVOKE_TTL_MS
  }

  lemma ComesFromSnoc(op: Operation, events: seq<Event>, e: Event)
    ensures ComesFrom(op, events) ==> ComesFrom(op, events + [e])
    ensures e.Register? && op == Registered(e.execution, e.tenant, e.confirmationId, e.now) ==> ComesFrom(op, events + [e])
  {
    var longer := events + [e];
    assert longer[|events|] == e;
    if ComesFrom(op, events) {
      var i :| 0 <= i < |events| && Registers(events[i], op);
      assert longer[i] == events[i];
    }
  }

  lemma StepComesFrom(r: Registry, past: seq<Event>, e: Event)
    requires forall id | id in r.ops :: ComesFrom(r.ops[id], past)
    ensures forall id | id in Apply(r, e).ops :: ComesFrom(Apply(r, e).ops[id], past + [e])
  {
    var t := Apply(r, e);
    forall id | id in t.ops ensures ComesFrom(t.ops[id], past + [e]) {
      ComesFromSnoc(t.ops[id], past, e);
      if id in r.ops && t.ops[id].revokeExpiresAt == r.ops[id].revokeExpiresAt && !e.Register? {
        assert ComesFrom(r.ops[id], past);
        assert t.ops[id] == r.ops[id] || t.ops[id] == Failed(r.ops[id], t.ops[id].lastRevokeError);
        SameOrigin(r.ops[id], t.ops[id], past);
      }
    }
  }

  lemma SameOrigin(a: Operation, b: Operation, events: seq<Event>)
    requires ComesFrom(a, events) && b == a.(lastRevokeError := b.lastRevokeError, revokeAttempts := b.revokeAttempts)
    ensures ComesFrom(b, events)
  {
  }

  lemma {:induction false} RunComesFrom(r: Registry, past: seq<Event>, events: seq<Event>)
    requires forall id | id in r.ops :: ComesFrom(r.ops[id], past)
    ensures forall id | id in Run(r, events).ops :: ComesFrom(Run(r, events).ops[id], past + events)
    decreases |events|
  {
    if events == [] {
      assert past + events == past;
    } else {
      StepComesFrom(r, past, events[0]);
      hide ComesFrom, Apply;
      RunComesFrom(Apply(r, events[0]), past + [events[0]], events[1..]);
      assert past + [events[0]] + events[1..] == past + events;
    }
  }

  /**
   * Over every run: whoever may revoke an operation is of the tenant it was
   * registered for, and no more than three minutes have passed since then.
   */
  lemma OnlyItsTenantInTime(events: seq<Event>, id: OpId, tenant: string, now: int)
    requires CanRevoke(Run(Nothing, events).ops, id, tenant, now) == Revocable
    ensures exists i | 0 <= i < |events| ::
              events[i].Register? && events[i].tenant == tenant && now <= events[i].now + 3 * 60 * 1000
  {
    RunComesFrom(Nothing, [], events);
    assert [] + events == events;
    hide Run, Registers;
    var op := Run(Nothing, events).ops[id];
    assert ComesFrom(op, events);
    var i :| 0 <= i < |events| && Registers(events[i], op);
    RegistersInTime(events[i], op, now);
  }

  lemma RegistersInTime(e: Event, op: Operation, now: int)
    requires Registers(e, op) && now <= op.revokeExpiresAt
    ensures e.Register? && e.tenant == op.tenant && now <= e.now + 3 * 60 * 1000
  {
  }

  // ---- what a clean-up changes -----------------------------------------------------

  /** The operation's window was over at a clean-up. */
  predicate SweptBy(op: Operation, events: seq<Event>) {
    exists i | 0 <= i < |events| :: events[i].Cleanup? && events[i].now > op.revokeExpiresAt
  }

  /** `cleaned` lacks exactly the operations whose window is over and that some clean-up in `swept` met. */
  ghost predicate Cleaned(full: Registry, cleaned: Registry, swept: seq<Event>, now: int) {
    && full.next == cleaned.next
    && (forall id | id in full.ops :: id < full.next)
    && (forall id | id in cleaned.ops :: id in full.ops && full.ops[id] == cleaned.ops[id])
    && (forall id | id in full.ops :: id !in cleaned.ops <==> SweptBy(full.ops[id], swept))
    && (forall i | 0 <= i < |swept| :: swept[i].now <= now)
  }

  lemma SweptBySnoc(op: Operation, swept: seq<Event>, e: Event)
    ensures SweptBy(op, swept + [e]) <==> SweptBy(op, swept) || (e.Cleanup? && e.now > op.revokeExpiresAt)
  {
    var longer := swept + [e];
    if SweptBy(op, swept) {
      var i :| 0 <= i < |swept| && swept[i].Cleanup? && swept[i].now > op.revokeExpiresAt;
      assert longer[i] == swept[i];
    }
    assert longer[|swept|] == e;
  }

  lemma StepKeepsCleaned(full: Registry, cleaned: Registry, swept: seq<Event>, now: int, e: Event)
    requires Cleaned(full, cleaned, swept, now) && now <= e.now
    ensures Cleaned(if e.Cleanup? then full else Apply(full, e), Apply(cleaned, e), swept + [e], e.now)
    ensures e.Revoke? || e.RevokeFailed? ==>
              (CanRevoke(cleaned.ops, e.id, e.tenant, e.now) == Revocable
               <==> CanRevoke(full.ops, e.id, e.tenant, e.now) == Revocable)
  {
    if e.Revoke? || e.RevokeFailed? {
      CleanedShows(full, cleaned, swept, now, e.id);
      LookupsDiffer(full.ops, cleaned.ops, e.id, e.tenant, e.now);
    }
    StepKeepsSwept(full, cleaned, swept, now, e);
  }

  lemma SameWindow(a: Operation, b: Operation, swept: seq<Event>)
    requires a.revokeExpiresAt == b.revokeExpiresAt
    ensures SweptBy(a, swept) <==> SweptBy(b, swept)
  {
  }

  lemma OpenIsUnswept(op: Operation, swept: seq<Event>, now: int)
    requires now <= op.revokeExpiresAt && forall i | 0 <= i < |swept| :: swept[i].now <= now
    ensures !SweptBy(op, swept)
  {
  }

  lemma CleanupKeepsSwept(full: Registry, cleaned: Registry, swept: seq<Event>, now: int, e: Event)
    requires Cleaned(full, cleaned, swept, now) && now <= e.now && e.Cleanup?
    ensures Cleaned(full, Apply(cleaned, e), swept + [e], e.now)
  {
    forall id | id in full.ops
      ensures id !in Apply(cleaned, e).ops <==> SweptBy(full.ops[id], swept + [e])
    {
      SweptBySnoc(full.ops[id], swept, e);
    }
    hide SweptBy;
  }

  /** What happens to one record on both sides keeps the two in step. */
  lemma ChangeKeepsSwept(full: Registry, cleaned: Registry, swept: seq<Event>, now: int, e: Event)
    requires Cleaned(full, cleaned, swept, now) && now <= e.now && !e.Cleanup?
    requires Apply(full, e).next == full.next && Apply(cleaned, e).next == cleaned.next
    requires forall id | id in Apply(full, e).ops ::
               id in full.ops && Apply(full, e).ops[id].revokeExpiresAt == full.ops[id].revokeExpiresAt
               && (id in Apply(cleaned, e).ops <==> id in cleaned.ops)
    requires forall id | id in Apply(cleaned, e).ops ::
               id in Apply(full, e).ops && Apply(full, e).ops[id] == Apply(cleaned, e).ops[id]
    ensures Cleaned(Apply(full, e), Apply(cleaned, e), swept + [e], e.now)
  {
    hide SweptBy, Apply;
    forall id | id in Apply(full, e).ops
      ensures id !in Apply(cleaned, e).ops <==> SweptBy(Apply(full, e).ops[id], swept + [e])
    {
      SweptBySnoc(Apply(full, e).ops[id], swept, e);
      SameWindow(Apply(full, e).ops[id], full.ops[id], swept);
    }
  }

  lemma RegisterKeepsSwept(full: Registry, cleaned: Registry, swept: seq<Event>, now: int, e: Event)
    requires Cleaned(full, cleaned, swept, now) && now <= e.now && e.Register?
    ensures Cleaned(Apply(full, e), Apply(cleaned, e), swept + [e], e.now)
  {
    hide SweptBy;
    forall id | id in Apply(full, e).ops
      ensures id !in Apply(cleaned, e).ops <==> SweptBy(Apply(full, e).ops[id], swept + [e])
    {
      SweptBySnoc(Apply(full, e).ops[id], swept, e);
      if id == full.next {
        OpenIsUnswept(Apply(full, e).ops[id], swept, e.now);
      }
    }
  }

  lemma StepKeepsSwept(full: Registry, cleaned: Registry, swept: seq<Event>, now: int, e: Event)
    requires Cleaned(full, cleaned, swept, now) && now <= e.now
    ensures Cleaned(if e.Cleanup? then full else Apply(full, e), Apply(cleaned, e), swept + [e], e.now)
  {
    match e
    case Cleanup(_) => CleanupKeepsSwept(full, cleaned, swept, now, e);
    case Register(_, _, _, _) => RegisterKeepsSwept(full, cleaned, swept, now, e);
    case _ =>
      CleanedShows(full, cleaned, swept, now, e.id);
      LookupsDiffer(full.ops, cleaned.ops, e.id, e.tenant, e.now);
      hide CanRevoke, SweptBy;
      ChangeKeepsSwept(full, cleaned, swept, now, e);
  }

  lemma {:induction false} RunKeepsCleaned(
      full: Registry, cleaned: Registry, swept: seq<Event>, now: int, events: seq<Event>)
    requires Cleaned(full, cleaned, swept, now) && Ordered(events, now)
    ensures Cleaned(Run(full, WithoutCleanups(events)), Run(cleaned, events), swept + events, LastTime(events, now))
    ensures Answers(cleaned, events) == Answers(full, WithoutCleanups(events))
    decreases |events|
  {
    if events == [] {
      assert swept + [] == swept;
    } else {
      var e := events[0];
      StepKeepsCleaned(full, cleaned, swept, now, e);
      assert (swept + [e]) + events[1..] == swept + events;
      hide Cleaned, Apply, CanRevoke;
      if e.Cleanup? {
        RunKeepsCleaned(full, Apply(cleaned, e), swept + [e], e.now, events[1..]);
        assert WithoutCleanups(events) == WithoutCleanups(events[1..]);
        assert Answers(cleaned, events) == [] + Answers(Apply(cleaned, e), events[1..]);
      } else {
        assert WithoutCleanups(events)[1..] == WithoutCleanups(events[1..]);
        RunKeepsCleaned(Apply(full, e), Apply(cleaned, e), swept + [e], e.now, events[1..]);
      }
    }
  }

  /** Whether an operation may be revoked never depends on the scheduled clean-up: all answers along a run stay the same. */
  lemma CleanupsKeepAnswers(events: seq<Event>, from: int)
    requires Ordered(events, from)
    ensures Answers(Nothing, events) == Answers(Nothing, WithoutCleanups(events))
  {
    RunKeepsCleaned(Nothing, Nothing, [], from, events);
  }

  /**
   * Exactly what a clean-up does change: the record and the reason of a
   * refusal, for the operations whose window was over at some clean-up - and
   * of those only, so only when the window is over now.
   */
  lemma CleanupShowsIffSwept(events: seq<Event>, from: int, id: OpId, tenant: string, now: int)
    requires Ordered(events, from) && LastTime(events, from) <= now
    ensures var full, cleaned := Run(Nothing, WithoutCleanups(events)).ops, Run(Nothing, events).ops;
            var swept := id in full && SweptBy(full[id], events);
            && ((CanRevoke(cleaned, id, tenant, now) == Revocable) == (CanRevoke(full, id, tenant, now) == Revocable))
            && (CanRevoke(cleaned, id, tenant, now) != CanRevoke(full, id, tenant, now) <==> swept)
            && ((id in full) != (id in cleaned) <==> swept)
            && (id in full && id in cleaned ==> full[id] == cleaned[id])
            && (swept ==> now > full[id].revokeExpiresAt)
  {
    RunKeepsCleaned(Nothing, Nothing, [], from, events);
    assert [] + events == events;
    hide Run, Answers, WithoutCleanups, Cleaned;
    var full, cleaned := Run(Nothing, WithoutCleanups(events)), Run(Nothing, events);
    CleanedShows(full, cleaned, events, LastTime(events, from), id);
    LookupsDiffer(full.ops, cleaned.ops, id, tenant, now);
  }

  lemma CleanedShows(full: Registry, cleaned: Registry, swept: seq<Event>, now: int, id: OpId)
    requires Cleaned(full, cleaned, swept, now)
    ensures id in cleaned.ops ==> id in full.ops && full.ops[id] == cleaned.ops[id]
    ensures id in full.ops && id !in cleaned.ops <==> id in full.ops && SweptBy(full.ops[id], swept)
    ensures id in full.ops && SweptBy(full.ops[id], swept) ==> now > full.ops[id].revokeExpiresAt
  {
  }

  lemma LookupsDiffer(full: Ops, cleaned: Ops, id: OpId, tenant: string, now: int)
    requires id in cleaned ==> id in full && full[id] == cleaned[id]
    requires id in full && id !in cleaned ==> now > full[id].revokeExpiresAt
    ensures (CanRevoke(cleaned, id, tenant, now) == Revocable) == (CanRevoke(full, id, tenant, now) == Revocable)
    ensures CanRevoke(cleaned, id, tenant, now) != CanRevoke(full, id, tenant, now) <==> id in full && id !in cleaned
  {
  }

  lemma {:induction false} FirstOfCleaned(full: Ops, cleaned: Ops, next: nat, confirmationId: string, tenant: string)
    requires forall id | id in cleaned :: id in full && full[id] == cleaned[id]
    ensures var found := FirstOf(full, next, confirmationId, tenant);
            && (found.Some? ==> found.value in full && found.value < next)
            && (FirstOf(cleaned, next, confirmationId, tenant) != found <==> found.Some? && found.value !in cleaned)
    decreases next
  {
    if next > 0 {
      FirstOfCleaned(full, cleaned, next - 1, confirmationId, tenant);
      LaterIsDifferent(cleaned, next, confirmationId, tenant);
    }
  }

  lemma {:induction false} LaterIsDifferent(ops: Ops, next: nat, confirmationId: string, tenant: string)
    ensures FirstOf(ops, next, confirmationId, tenant).Some? ==>
              FirstOf(ops, next, confirmationId, tenant).value in ops
              && FirstOf(ops, next, confirmationId, tenant).value < next
    decreases next
  {
    if next > 0 {
      LaterIsDifferent(ops, next - 1, confirmationId, tenant);
    }
  }

  /** The same for the lookup by confirmation, whose result a resumed graph takes over: it changes exactly when its operation was swept. */
  lemma LookupChangesIffSwept(events: seq<Event>, from: int, confirmationId: string, tenant: string)
    requires Ordered(events, from)
    ensures var full, cleaned := Run(Nothing, WithoutCleanups(events)), Run(Nothing, events);
            var found := FirstOf(full.ops, full.next, confirmationId, tenant);
            && (found.Some? ==> found.value in full.ops)
            && (FirstOf(cleaned.ops, cleaned.next, confirmationId, tenant) != found
                <==> found.Some? && SweptBy(full.ops[found.value], events))
  {
    RunKeepsCleaned(Nothing, Nothing, [], from, events);
    assert [] + events == events;
    var full, cleaned := Run(Nothing, WithoutCleanups(events)), Run(Nothing, events);
    FirstOfCleaned(full.ops, cleaned.ops, full.next, confirmationId, tenant);
    hide Run, Answers, WithoutCleanups, FirstOf, SweptBy;
  }

  // ---- how often one execution can be revoked --------------------------------------------

  /** Successful revocations of operations registered for one execution. */
  function Revocations(r: Registry, events: seq<Event>, execution: nat): nat
    decreases |events|
  {
    if events == [] then 0
    else
      (if events[0].Revoke? && CanRevoke(r.ops, events[0].id, events[0].tenant, events[0].now) == Revocable
          && r.ops[events[0].id].execution == execution then 1 else 0)
      + Revocations(Apply(r, events[0]), events[1..], execution)
  }

  /** The records of an execution whose window is still open. */
  function Open(ops: Ops, execution: nat, now: int): set<OpId> {
    set id | id in ops && ops[id].execution == execution && ops[id].status == Executed && now <= ops[id].revokeExpiresAt
  }

  predicate NotRegistered(events: seq<Event>, execution: nat) {
    forall i | 0 <= i < |events| :: events[i].Register? ==> events[i].execution != execution
  }

  lemma OpenShrinks(r: Registry, e: Event, execution: nat, from: int)
    requires (forall id | id in r.ops :: id < r.next) && from <= e.now
    requires e.Register? ==> e.execution != execution
    ensures forall id | id in Apply(r, e).ops :: id < Apply(r, e).next
    ensures Open(Apply(r, e).ops, execution, e.now)
            <= Open(r.ops, execution, from)
               - if e.Revoke? && CanRevoke(r.ops, e.id, e.tenant, e.now) == Revocable then {e.id} else {}
    ensures e.Revoke? && CanRevoke(r.ops, e.id, e.tenant, e.now) == Revocable && r.ops[e.id].execution == execution ==>
              e.id in Open(r.ops, execution, from)
  {
  }

  /** Until it is registered again, an execution is revoked at most once per open record. */
  lemma {:induction false} RevokedAtMostOncePerRecord(r: Registry, events: seq<Event>, execution: nat, from: int)
    requires (forall id | id in r.ops :: id < r.next) && Ordered(events, from) && NotRegistered(events, execution)
    ensures Revocations(r, events, execution) <= |Open(r.ops, execution, from)|
    decreases |events|
  {
    if events != [] {
      var e := events[0];
      var open, open' := Open(r.ops, execution, from), Open(Apply(r, e).ops, execution, e.now);
      OpenShrinks(r, e, execution, from);
      forall i | 0 <= i < |events[1..]| ensures events[1..][i].Register? ==> events[1..][i].execution != execution {
        assert events[1..][i] == events[i + 1];
      }
      RevokedAtMostOncePerRecord(Apply(r, e), events[1..], execution, e.now);
      hide Apply, Open;
      if e.Revoke? && CanRevoke(r.ops, e.id, e.tenant, e.now) == Revocable && r.ops[e.id].execution == execution {
        CardinalityWithout(open, e.id);
        CardinalityBelow(open', open - {e.id});
      } else {
        CardinalityBelow(open', open);
      }
    }
  }

  /** Two open records of one execution are two revocations waiting to happen. */
  lemma RevokeBoth(r: Registry, a: OpId, b: OpId, execution: nat, now: int) returns (events: seq<Event>)
    requires a != b && a in Open(r.ops, execution, now) && b in Open(r.ops, execution, now)
    ensures Ordered(events, now) && NotRegistered(events, execution)
    ensures Revocations(r, events, execution) == 2
  {
    events := [Revoke(a, r.ops[a].tenant, now), Revoke(b, r.ops[b].tenant, now)];
    var r1 := Apply(r, events[0]);
    assert r1.ops == r.ops - {a} && r1.ops[b] == r.ops[b];
    assert events[1..][1..] == [] && events[1..][0] == events[1];
    assert Revocations(r1, events[1..], execution) == 1 + Revocations(Apply(r1, events[1]), events[1..][1..], execution);
  }

  ghost predicate CanBeRevokedTwice(r: Registry, execution: nat, now: int) {
    exists events :: Ordered(events, now) && NotRegistered(events, execution) && Revocations(r, events, execution) >= 2
  }

  /**
   * Exactly when one execution can be revoked more than once without being
   * registered again: two of its records are open at the same time.
   */
  lemma RevokedTwiceIffTwoOpen(r: Registry, execution: nat, now: int)
    requires forall id | id in r.ops :: id < r.next
    ensures CanBeRevokedTwice(r, execution, now) <==> |Open(r.ops, execution, now)| >= 2
  {
    var open := Open(r.ops, execution, now);
    if |open| >= 2 {
      var a :| a in open;
      CardinalityWithout(open, a);
      var b :| b in open - {a};
      var events := RevokeBoth(r, a, b, execution, now);
    }
    if CanBeRevokedTwice(r, execution, now) {
      var events :| Ordered(events, now) && NotRegistered(events, execution) && Revocations(r, events, execution) >= 2;
      RevokedAtMostOncePerRecord(r, events, execution, now);
    }
  }

  /** The input that does it: a replayed result registers its execution a second time within the window. */
  lemma ReplayOpensASecondWindow(execution: nat, tenant: string, confirmationId: string, first: int, again: int)
    requires first <= again <= first + REVOKE_TTL_MS
    ensures var r := Run(Nothing, [Register(execution, tenant, confirmationId, first),
                                   Register(execution, tenant, confirmationId, again)]);
            && Open(r.ops, execution, again) == {0, 1}
            && CanBeRevokedTwice(r, execution, again)
  {
    var events := [Register(execution, tenant, confirmationId, first), Register(execution, tenant, confirmationId, again)];
    var r1 := Apply(Nothing, events[0]);
    var r2 := Apply(r1, events[1]);
    assert events[1..][0] == events[1] && events[1..][1..] == [];
    assert Run(Nothing, events) == Run(r1, events[1..]) == r2;
    assert r2.next == 2 && r2.ops.Keys == {0, 1};
    assert Open(r2.ops, execution, again) == {0, 1};
    RevokedTwiceIffTwoOpen(r2, execution, again);
  }

  /** Registered once, an execution is revoked at most once, over every run. */
  lemma RevokedAtMostOnce(
      before: seq<Event>, execution: nat, tenant: string, confirmationId: string, now: int, events: seq<Event>, from: int)
    requires Ordered(before, from) && LastTime(before, from) <= now && Ordered(events, now)
    requires NotRegistered(before, execution) && NotRegistered(events, execution)
    ensures var r := Apply(Run(Nothing, before), Register(execution, tenant, confirmationId, now));
            Revocations(r, events, execution) <= 1
  {
    var r0 := Run(Nothing, before);
    NeverRegisteredIsAbsent(Nothing, before, execution);
    var r := Apply(r0, Register(execution, tenant, confirmationId, now));
    assert Open(r.ops, execution, now) <= {r0.next};
    CardinalityBelow(Open(r.ops, execution, now), {r0.next});
    RevokedAtMostOncePerRecord(r, events, execution, now);
  }

  lemma {:induction false} NeverRegisteredIsAbsent(r: Registry, events: seq<Event>, execution: nat)
    requires forall id | id in r.ops :: id < r.next && r.ops[id].execution != execution
    requires NotRegistered(events, execution)
    ensures forall id | id in Run(r, events).ops :: id < Run(r, events).next && Run(r, events).ops[id].execution != execution
    decreases |events|
  {
    if events != [] {
      forall i | 0 <= i < |events[1..]| ensures events[1..][i].Register? ==> events[1..][i].execution != execution {
        assert events[1..][i] == events[i + 1];
      }
      assert events[0].Register? ==> events[0].execution != execution;
      NeverRegisteredIsAbsent(Apply(r, events[0]), events[1..], execution);
    }
  }
}
