/**
 * Write tokens and the service that stores them (src/brain/write-guard.service.ts).
 *
 * The judgements are functions of one stored record; the service class keeps
 * the records and the per-tenant index in two stores.  Each command goes to
 * Redis when Redis is in use and answers it, and to memory otherwise, so one
 * operation may read one store and write the other.  The memory map holds the
 * records themselves: what an operation changes in a record it read there is
 * changed in the map too.  Interleaved callers and the leased lock are in
 * WriteGuardProtocol.dfy.
 */
module WriteGuard {
  import opened Common

  datatype Status = Pending | FirstConfirmed | Confirmed | Cancelled | Expired

  datatype Risk = Low | Medium | High

  datatype PendingWrite = PendingWrite(
    tenant: string,
    token: string,
    customer: string,
    tool: string,
    risk: Risk,
    needsReview: bool,
    expiresAt: int,
    status: Status,
    confirmCount: nat)

  predicate HighRisk(w: PendingWrite) {
    w.risk == High || w.needsReview
  }

  datatype Refusal = NotFound | NotOwner | AlreadyCancelled | AlreadyConfirmed

  datatype Verdict = Refuse(why: Refusal) | AskAgain(first: PendingWrite) | GoAhead(confirmed: PendingWrite)

  /** `doConfirm` on the loaded, unexpired record; an empty customer means none. */
  function JudgeConfirm(w: PendingWrite, customer: string): Verdict {
    if w.customer != "" && customer != w.customer then Refuse(NotOwner)
    else if w.status == Cancelled then Refuse(AlreadyCancelled)
    else if w.status == Confirmed then Refuse(AlreadyConfirmed)
    else if HighRisk(w) && w.status == Pending then AskAgain(w.(status := FirstConfirmed, confirmCount := 1))
    else GoAhead(w.(status := Confirmed, confirmCount := w.confirmCount + 1))
  }

  datatype Ref = Ref(tenant: string, token: string)

  /** `doConfirm` with the record `get` handed it. */
  function Judged(w: Option<PendingWrite>, customer: string): Verdict {
    if w.None? then Refuse(NotFound) else JudgeConfirm(w.value, customer)
  }

  type Store = map<Ref, PendingWrite>
  type Index = map<string, set<string>>

  function Indexed(index: Index, tenant: string): set<string> {
    if tenant in index then index[tenant] else {}
  }

  /** The index lists exactly the tokens stored for each tenant, and holds no empty entry. */
  ghost predicate InStep(store: Store, index: Index) {
    && (forall k | k in store :: Ref(store[k].tenant, store[k].token) == k)
    && (forall tenant, token :: token in Indexed(index, tenant) <==> Ref(tenant, token) in store)
    && (forall tenant | tenant in index :: index[tenant] != {})
  }

  function Without(index: Index, tenant: string, token: string): Index {
    var left := Indexed(index, tenant) - {token};
    if tenant !in index then index
    else if left == {} then index - {tenant}
    else index[tenant := left]
  }

  function With(index: Index, tenant: string, token: string): Index {
    index[tenant := Indexed(index, tenant) + {token}]
  }

  lemma SaveStaysInStep(store: Store, index: Index, w: PendingWrite)
    requires InStep(store, index)
    ensures InStep(store[Ref(w.tenant, w.token) := w], With(index, w.tenant, w.token))
  {
    var index' := With(index, w.tenant, w.token);
    forall tenant, token
      ensures token in Indexed(index', tenant) <==> Ref(tenant, token) in store[Ref(w.tenant, w.token) := w]
    {
      assert token in Indexed(index, tenant) <==> Ref(tenant, token) in store;
    }
  }

  lemma RemoveStaysInStep(store: Store, index: Index, tenant: string, token: string)
    requires InStep(store, index)
    ensures InStep(store - {Ref(tenant, token)}, Without(index, tenant, token))
  {
    var index' := Without(index, tenant, token);
    forall t, k
      ensures k in Indexed(index', t) <==> Ref(t, k) in store - {Ref(tenant, token)}
    {
      assert k in Indexed(index, t) <==> Ref(t, k) in store;
    }
  }

  datatype Stores = Stores(redis: Store, memory: Store)

  /** Whether Redis answers the read and the write of an operation. */
  datatype Net = Net(loads: bool, saves: bool)

  function Chosen(s: Stores, redis: bool): Store {
    if redis then s.redis else s.memory
  }

  function Stored(s: Stores, redis: bool, w: PendingWrite): Stores {
    var ref := Ref(w.tenant, w.token);
    if redis then s.(redis := s.redis[ref := w]) else s.(memory := s.memory[ref := w])
  }

  function Dropped(s: Stores, redis: bool, ref: Ref): Stores {
    if redis then s.(redis := s.redis - {ref}) else s.(memory := s.memory - {ref})
  }

  function Live(records: Store, ref: Ref, now: int): Option<PendingWrite> {
    if ref in records && now <= records[ref].expiresAt then Some(records[ref]) else None
  }

  /** Reading removes the record it finds expired. */
  function Purged(s: Stores, loads: bool, saves: bool, ref: Ref, now: int): Stores {
    if ref in Chosen(s, loads) && now > Chosen(s, loads)[ref].expiresAt then Dropped(s, saves, ref) else s
  }

  /** A record read from memory is changed where it stands. */
  function Changed(s: Stores, loads: bool, w: PendingWrite): Stores {
    if loads then s else Stored(s, false, w)
  }

  lemma JudgedKeepsRef(w: Option<PendingWrite>, customer: string)
    ensures Judged(w, customer).AskAgain? ==>
              w.Some? && Judged(w, customer).first.tenant == w.value.tenant && Judged(w, customer).first.token == w.value.token
    ensures Judged(w, customer).GoAhead? ==>
              w.Some? && Judged(w, customer).confirmed.tenant == w.value.tenant
              && Judged(w, customer).confirmed.token == w.value.token
  {
  }

  /**
   * What a confirm must answer on a live record or none: refusals for a
   * missing record, a stranger and a settled one, in this order; a first
   * confirm of a high-risk or reviewed write asks for a second.
   */
  predicate RightVerdict(v: Verdict, record: Option<PendingWrite>, customer: string) {
    if record.None? then v == Refuse(NotFound)
    else
      var w := record.value;
      var stranger := w.customer != "" && w.customer != customer;
      && (v == Refuse(NotOwner) <==> stranger)
      && (v == Refuse(AlreadyCancelled) <==> !stranger && w.status == Cancelled)
      && (v == Refuse(AlreadyConfirmed) <==> !stranger && w.status == Confirmed)
      && (v.AskAgain? <==> !stranger && w.status == Pending && (w.risk == High || w.needsReview))
      && (v.AskAgain? ==> v.first == w.(status := FirstConfirmed, confirmCount := 1))
      && (v.GoAhead? ==> v.confirmed == w.(status := Confirmed, confirmCount := w.confirmCount + 1))
      && v != Refuse(NotFound)
  }

  lemma JudgedRightly(w: Option<PendingWrite>, customer: string)
    ensures RightVerdict(Judged(w, customer), w, customer)
  {
  }

  class WriteGuardService {
    var redisAvailable: bool
    var redisStore: Store
    var redisIndex: Index
    var memoryMap: Store
    var memoryIndex: Index

    ghost predicate Valid()
      reads this
    {
      InStep(redisStore, redisIndex) && InStep(memoryMap, memoryIndex)
    }

    ghost function View(): Stores
      reads this
    {
      Stores(redisStore, memoryMap)
    }

    constructor ()
      ensures Valid() && View() == Stores(map[], map[])
    {
      redisAvailable := false;
      redisStore, redisIndex, memoryMap, memoryIndex := map[], map[], map[], map[];
    }

    method Save(w: PendingWrite, answers: bool)
      requires Valid()
      modifies this
      ensures Valid() && redisAvailable == old(redisAvailable)
      ensures View() == Stored(old(View()), redisAvailable && answers, w)
      ensures redisAvailable && answers ==>
                redisStore == old(redisStore)[Ref(w.tenant, w.token) := w] && memoryMap == old(memoryMap)
      ensures !(redisAvailable && answers) ==>
                memoryMap == old(memoryMap)[Ref(w.tenant, w.token) := w] && redisStore == old(redisStore)
    {
      if redisAvailable && answers {
        SaveStaysInStep(redisStore, redisIndex, w);
        redisStore := redisStore[Ref(w.tenant, w.token) := w];
        redisIndex := With(redisIndex, w.tenant, w.token);
        return;
      }
      SaveStaysInStep(memoryMap, memoryIndex, w);
      memoryMap := memoryMap[Ref(w.tenant, w.token) := w];
      memoryIndex := With(memoryIndex, w.tenant, w.token);
    }

    method Remove(w: PendingWrite, answers: bool)
      requires Valid()
      modifies this
      ensures Valid() && redisAvailable == old(redisAvailable)
      ensures View() == Dropped(old(View()), redisAvailable && answers, Ref(w.tenant, w.token))
      ensures redisAvailable && answers ==>
                redisStore == old(redisStore) - {Ref(w.tenant, w.token)} && memoryMap == old(memoryMap)
      ensures !(redisAvailable && answers) ==>
                memoryMap == old(memoryMap) - {Ref(w.tenant, w.token)} && redisStore == old(redisStore)
    {
      if redisAvailable && answers {
        RemoveStaysInStep(redisStore, redisIndex, w.tenant, w.token);
        redisStore := redisStore - {Ref(w.tenant, w.token)};
        redisIndex := Without(redisIndex, w.tenant, w.token);
        return;
      }
      RemoveStaysInStep(memoryMap, memoryIndex, w.tenant, w.token);
      memoryMap := memoryMap - {Ref(w.tenant, w.token)};
      memoryIndex := Without(memoryIndex, w.tenant, w.token);
    }

    method Load(ref: Ref, answers: bool) returns (w: Option<PendingWrite>)
      requires Valid()
      ensures var records := if redisAvailable && answers then redisStore else memoryMap;
              w == if ref in records then Some(records[ref]) else None
      ensures w.Some? ==> Ref(w.value.tenant, w.value.token) == ref
    {
      if redisAvailable && answers {
        return if ref in redisStore then Some(redisStore[ref]) else None;
      }
      return if ref in memoryMap then Some(memoryMap[ref]) else None;
    }

    /** `get`: an expired record is deleted on the way and reported as absent. */
    method Get(ref: Ref, now: int, net: Net) returns (w: Option<PendingWrite>)
      requires Valid()
      modifies this
      ensures Valid() && redisAvailable == old(redisAvailable)
      ensures w == Live(Chosen(old(View()), redisAvailable && net.loads), ref, now)
      ensures var records := if redisAvailable && net.loads then old(redisStore) else old(memoryMap);
              && (w.Some? <==> ref in records && now <= records[ref].expiresAt)
              && (w.Some? ==> w.value == records[ref] && View() == old(View()))
              && (ref !in records ==> View() == old(View()))
              && (ref in records && now > records[ref].expiresAt ==>
                    if redisAvailable && net.saves then redisStore == old(redisStore) - {ref} && memoryMap == old(memoryMap)
                    else memoryMap == old(memoryMap) - {ref} && redisStore == old(redisStore))
      ensures w.Some? ==> Ref(w.value.tenant, w.value.token) == ref
      ensures View() == Purged(old(View()), redisAvailable && net.loads, redisAvailable && net.saves, ref, now)
    {
      w := Load(ref, net.loads);
      hide InStep;
      if w.Some? && now > w.value.expiresAt {
        Remove(w.value, net.saves);
        return None;
      }
    }

    /** The assignments to a record's fields, which the memory map shares. */
    method Change(w: PendingWrite, loads: bool)
      requires Valid()
      requires !(redisAvailable && loads) ==> Ref(w.tenant, w.token) in memoryMap
      modifies this`memoryMap
      ensures Valid()
      ensures View() == Changed(old(View()), redisAvailable && loads, w)
      ensures memoryMap == if redisAvailable && loads then old(memoryMap) else old(memoryMap)[Ref(w.tenant, w.token) := w]
    {
      if !(redisAvailable && loads) {
        assert Ref(w.tenant, w.token) in memoryMap;
        memoryMap := memoryMap[Ref(w.tenant, w.token) := w];
      }
    }

    method Confirm(ref: Ref, customer: string, now: int, net: Net) returns (v: Verdict)
      requires Valid()
      modifies this
      ensures Valid() && redisAvailable == old(redisAvailable)
      ensures var loads, saves := redisAvailable && net.loads, redisAvailable && net.saves;
              && v == Judged(Live(Chosen(old(View()), loads), ref, now), customer)
              && View() == match v
                           case Refuse(_) => Purged(old(View()), loads, saves, ref, now)
                           case AskAgain(w) => Stored(Changed(old(View()), loads, w), saves, w)
                           case GoAhead(w) => Stored(Changed(old(View()), loads, w), saves, w)
      ensures var records := if redisAvailable && net.loads then old(redisStore) else old(memoryMap);
              RightVerdict(v, if ref in records && now <= records[ref].expiresAt then Some(records[ref]) else None, customer)
      ensures v.Refuse? && v.why != NotFound ==> View() == old(View())
    {
      var w := Get(ref, now, net);
      v := Judged(w, customer);
      JudgedKeepsRef(w, customer);
      JudgedRightly(w, customer);
      hide InStep, Judged, Stored, Changed, Dropped, RightVerdict;
      if !v.Refuse? {
        Replace(if v.AskAgain? then v.first else v.confirmed, net);
      }
    }

    /** Change a loaded record and save it. */
    method Replace(w: PendingWrite, net: Net)
      requires Valid()
      requires !(redisAvailable && net.loads) ==> Ref(w.tenant, w.token) in memoryMap
      modifies this
      ensures Valid() && redisAvailable == old(redisAvailable)
      ensures View() == Stored(Changed(old(View()), redisAvailable && net.loads, w), redisAvailable && net.saves, w)
    {
      hide InStep;
      Change(w, net.loads);
      Save(w, net.saves);
    }

    /** Only a confirmed token goes back to pending; its confirm count is kept. */
    method ResetToPending(ref: Ref, now: int, net: Net) returns (ok: bool)
      requires Valid()
      modifies this
      ensures Valid() && redisAvailable == old(redisAvailable)
      ensures var loads, saves := redisAvailable && net.loads, redisAvailable && net.saves;
              var w := Live(Chosen(old(View()), loads), ref, now);
              && ok == (w.Some? && w.value.status == Confirmed)
              && View() == if ok
                           then Stored(Changed(old(View()), loads, w.value.(status := Pending)), saves, w.value.(status := Pending))
                           else Purged(old(View()), loads, saves, ref, now)
    {
      var w := Get(ref, now, net);
      hide InStep;
      if w == None || w.value.status != Confirmed {
        return false;
      }
      var reset := w.value.(status := Pending);
      Replace(reset, net);
      return true;
    }

    /** A confirmed token cannot be cancelled; any other one is deleted. */
    method Cancel(ref: Ref, now: int, net: Net) returns (ok: bool)
      requires Valid()
      modifies this
      ensures Valid() && redisAvailable == old(redisAvailable)
      ensures var loads, saves := redisAvailable && net.loads, redisAvailable && net.saves;
              var w := Live(Chosen(old(View()), loads), ref, now);
              && ok == (w.Some? && w.value.status != Confirmed)
              && View() == if ok
                           then Dropped(Changed(old(View()), loads, w.value.(status := Cancelled)), saves, ref)
                           else Purged(old(View()), loads, saves, ref, now)
    {
      var w := Get(ref, now, net);
      hide InStep;
      if w == None || w.value.status == Confirmed {
        return false;
      }
      var cancelled := w.value.(status := Cancelled);
      Change(cancelled, net.loads);
      Remove(cancelled, net.saves);
      return true;
    }
  }
}
