/**
 * The token bucket in its three forms: the in-process map and the Lua script
 * (src/common/rate-limiter.ts), and the script's emulation in the in-memory
 * Redis client (src/common/redis-memory.client.ts).
 */
module RateLimiter {
  import opened Common

  const WINDOW_MS := 60_000
  const KEY_TTL_MS := 120_000

  datatype Bucket = Bucket(tokens: real, lastRefillMs: int)

  datatype Answer = Answer(allowed: bool, remaining: int)

  /** One call of `consume`; the capacity is that of the read or the write bucket. */
  datatype Request = Request(key: string, now: int, capacity: real, tokens: real)

  predicate Proper(r: Request) {
    r.capacity >= 1.0 && r.tokens >= 0.0
  }

  function RefillPerMs(capacity: real): real {
    capacity / WINDOW_MS as real
  }

  /** What flows into a bucket of the given capacity in d milliseconds. */
  function Inflow(capacity: real, d: int): real {
    d as real * RefillPerMs(capacity)
  }

  function MinReal(a: real, b: real): real {
    if a <= b then a else b
  }

  /** The bucket after refilling for the time since its last use; a missing one is full. */
  function Refilled(b: Option<Bucket>, r: Request): real {
    if b.None? then r.capacity
    else MinReal(r.capacity, b.value.tokens + Inflow(r.capacity, Max(0, r.now - b.value.lastRefillMs)))
  }

  function Allowed(b: Option<Bucket>, r: Request): bool {
    Refilled(b, r) >= r.tokens
  }

  function Granted(b: Option<Bucket>, r: Request): real {
    if Allowed(b, r) then r.tokens else 0.0
  }

  function After(b: Option<Bucket>, r: Request): Bucket {
    Bucket(Refilled(b, r) - Granted(b, r), r.now)
  }

  function Reply(b: Option<Bucket>, r: Request): Answer {
    Answer(Allowed(b, r), After(b, r).tokens.Floor)
  }

  /** What a request finds in its bucket. */
  function Available(was: Option<Bucket>, r: Request): real {
    var idle := if was.Some? && r.now > was.value.lastRefillMs then r.now - was.value.lastRefillMs else 0;
    var gained := if was.Some? then was.value.tokens + idle as real * (r.capacity / WINDOW_MS as real) else r.capacity;
    if gained > r.capacity then r.capacity else gained
  }

  /**
   * One request served: a missing bucket is full, any other has gained
   * capacity / WINDOW_MS for each millisecond since its last use and overflows
   * at the capacity; the tokens go exactly if there are enough of them; the
   * remaining whole tokens are reported.
   */
  predicate Served(was: Option<Bucket>, r: Request, a: Answer, after: Bucket) {
    var full := Available(was, r);
    && (a.allowed <==> r.tokens <= full)
    && after == Bucket(if r.tokens <= full then full - r.tokens else full, r.now)
    && a.remaining as real <= after.tokens < a.remaining as real + 1.0
  }

  lemma ReplyServes(b: Option<Bucket>, r: Request)
    ensures Served(b, r, Reply(b, r), After(b, r))
  {
    RefillsToAvailable(b, r);
    hide Refilled, Available;
  }

  lemma RefillsToAvailable(b: Option<Bucket>, r: Request)
    ensures Refilled(b, r) == Available(b, r)
  {
    if b.Some? {
      var idle := if r.now > b.value.lastRefillMs then r.now - b.value.lastRefillMs else 0;
      assert Max(0, r.now - b.value.lastRefillMs) == idle;
      assert Inflow(r.capacity, idle) == idle as real * (r.capacity / WINDOW_MS as real);
      hide Inflow;
    }
  }

  // ---- the arithmetic bound, one key -----------------------------------------

  predicate InRange(b: Option<Bucket>, capacity: real) {
    b.Some? ==> 0.0 <= b.value.tokens <= capacity
  }

  function RunBucket(b: Option<Bucket>, rs: seq<Request>): Option<Bucket>
    decreases |rs|
  {
    if rs == [] then b else RunBucket(Some(After(b, rs[0])), rs[1..])
  }

  function TotalGranted(b: Option<Bucket>, rs: seq<Request>): real
    decreases |rs|
  {
    if rs == [] then 0.0 else Granted(b, rs[0]) + TotalGranted(Some(After(b, rs[0])), rs[1..])
  }

  predicate OneBucket(rs: seq<Request>, key: string, capacity: real) {
    forall r | r in rs :: Proper(r) && r.key == key && r.capacity == capacity
  }

  predicate Monotone(rs: seq<Request>, from: int) {
    rs == [] || (from <= rs[0].now && Monotone(rs[1..], rs[0].now))
  }

  lemma RefillScales(capacity: real, d: int, e: int)
    requires capacity >= 0.0
    ensures d <= e ==> Inflow(capacity, d) <= Inflow(capacity, e)
    ensures d >= 0 ==> Inflow(capacity, d) >= 0.0
    ensures d >= WINDOW_MS ==> Inflow(capacity, d) >= capacity
    ensures Inflow(capacity, d + e) == Inflow(capacity, d) + Inflow(capacity, e)
  {
    var f := RefillPerMs(capacity);
    FullWindow(capacity);
    hide RefillPerMs;
    assert Inflow(capacity, d) == d as real * f && Inflow(capacity, e) == e as real * f;
    assert Inflow(capacity, d + e) == (d + e) as real * f;
    hide Inflow;
    MulOrder(d as real, e as real, f);
    MulOrder(0.0, d as real, f);
    MulOrder(WINDOW_MS as real, d as real, f);
    assert (d + e) as real == d as real + e as real;
    MulSum(d as real, e as real, f);
  }

  lemma FullWindow(capacity: real)
    requires capacity >= 0.0
    ensures RefillPerMs(capacity) >= 0.0 && WINDOW_MS as real * RefillPerMs(capacity) == capacity
  {
  }

  lemma MulSum(x: real, y: real, f: real)
    ensures (x + y) * f == x * f + y * f
  {
  }

  lemma MulOrder(x: real, y: real, f: real)
    requires f >= 0.0
    ensures x <= y ==> x * f <= y * f
    ensures 0.0 * f == 0.0
  {
    if x <= y {
      assert (y - x) * f >= 0.0;
      MulSum(x, y - x, f);
    }
  }

  lemma AfterInRange(b: Option<Bucket>, r: Request)
    requires Proper(r) && InRange(b, r.capacity)
    ensures InRange(Some(After(b, r)), r.capacity) && 0.0 <= Refilled(b, r) <= r.capacity
  {
    if b.Some? {
      RefillScales(r.capacity, Max(0, r.now - b.value.lastRefillMs), 0);
    }
  }

  lemma {:induction false} BucketStaysInRange(b: Option<Bucket>, rs: seq<Request>, key: string, capacity: real)
    requires OneBucket(rs, key, capacity) && InRange(b, capacity)
    ensures InRange(RunBucket(b, rs), capacity)
    decreases |rs|
  {
    if rs != [] {
      assert rs[0] in rs;
      AfterInRange(b, rs[0]);
      BucketStaysInRange(Some(After(b, rs[0])), rs[1..], key, capacity);
    }
  }

  /** What one request takes out and leaves is no more than what was there and flowed in. */
  lemma OneRequestBalance(b: Bucket, r: Request)
    requires Proper(r) && b.lastRefillMs <= r.now
    ensures Granted(Some(b), r) + After(Some(b), r).tokens <= b.tokens + Inflow(r.capacity, r.now - b.lastRefillMs)
    ensures After(Some(b), r).lastRefillMs == r.now
  {
  }

  /** A bucket grants at most its content and what flows in until `to`. */
  lemma {:induction false} GrantsFromBucket(b: Bucket, rs: seq<Request>, key: string, capacity: real, to: int)
    requires OneBucket(rs, key, capacity) && InRange(Some(b), capacity) && capacity >= 1.0
    requires Monotone(rs, b.lastRefillMs) && b.lastRefillMs <= to
    requires forall r | r in rs :: r.now <= to
    ensures TotalGranted(Some(b), rs) <= b.tokens + Inflow(capacity, to - b.lastRefillMs)
    decreases |rs|
  {
    hide Inflow, Refilled, Granted, After;
    RefillScales(capacity, to - b.lastRefillMs, 0);
    if rs != [] {
      var r := rs[0];
      assert r in rs;
      AfterInRange(Some(b), r);
      OneRequestBalance(b, r);
      GrantsFromBucket(After(Some(b), r), rs[1..], key, capacity, to);
      RefillScales(capacity, r.now - b.lastRefillMs, to - r.now);
      assert (r.now - b.lastRefillMs) + (to - r.now) == to - b.lastRefillMs;
    }
  }

  /**
   * On a clock that never goes back, the requests of one key that fall in
   * [from, to] are granted at most the capacity plus the inflow over the
   * interval, from any state the bucket can be in.
   */
  lemma GrantsInInterval(b: Option<Bucket>, rs: seq<Request>, key: string, capacity: real, from: int, to: int)
    requires OneBucket(rs, key, capacity) && InRange(b, capacity) && capacity >= 1.0
    requires Monotone(rs, from) && from <= to && forall r | r in rs :: r.now <= to
    ensures TotalGranted(b, rs) <= capacity + Inflow(capacity, to - from)
  {
    RefillScales(capacity, to - from, 0);
    if rs != [] {
      var r := rs[0];
      assert r in rs;
      AfterInRange(b, r);
      assert Granted(b, r) + After(b, r).tokens <= capacity && After(b, r).lastRefillMs == r.now;
      hide Inflow, Refilled, Granted, After;
      GrantsFromBucket(After(b, r), rs[1..], key, capacity, to);
      RefillScales(capacity, to - r.now, to - from);
    }
  }

  /** The clock assumption is needed: one step back and forth refills a bucket of one token twice. */
  lemma ClockStepBackBreaksBound(key: string)
    ensures var rs := [Request(key, WINDOW_MS, 1.0, 1.0), Request(key, 0, 1.0, 1.0), Request(key, WINDOW_MS, 1.0, 1.0)];
            TotalGranted(None, [rs[0], rs[2]]) == 1.0 && TotalGranted(None, rs) == 2.0
  {
    var r0, r1, r2 := Request(key, WINDOW_MS, 1.0, 1.0), Request(key, 0, 1.0, 1.0), Request(key, WINDOW_MS, 1.0, 1.0);
    var b0 := After(None, r0);
    var b1 := After(Some(b0), r1);
    assert b0 == Bucket(0.0, WINDOW_MS) && b1 == Bucket(0.0, 0);
    assert RefillPerMs(1.0) * 60000.0 == 1.0;
    assert TotalGranted(Some(b1), [r2]) == Granted(Some(b1), r2) + TotalGranted(Some(After(Some(b1), r2)), []);
    assert [r1, r2][1..] == [r2] && [r0, r1, r2][1..] == [r1, r2] && [r0, r2][1..] == [r2];
    assert TotalGranted(Some(b0), [r2]) == Granted(Some(b0), r2) + TotalGranted(Some(After(Some(b0), r2)), []);
    assert TotalGranted(Some(b0), [r1, r2]) == 1.0;
  }

  // ---- the reference: buckets that are never dropped ---------------------------

  type Buckets = map<string, Bucket>

  function Lookup(m: Buckets, key: string): Option<Bucket> {
    if key in m then Some(m[key]) else None
  }

  function Reference(m: Buckets, rs: seq<Request>): seq<Answer>
    decreases |rs|
  {
    if rs == [] then []
    else [Reply(Lookup(m, rs[0].key), rs[0])] + Reference(m[rs[0].key := After(Lookup(m, rs[0].key), rs[0])], rs[1..])
  }

  predicate AllProper(rs: seq<Request>) {
    forall r | r in rs :: Proper(r)
  }

  /** A bucket idle for a whole window is as good as none, for any capacity. */
  lemma IdleIsFull(b: Bucket, r: Request)
    requires Proper(r) && b.tokens >= 0.0 && b.lastRefillMs + WINDOW_MS <= r.now
    ensures Refilled(Some(b), r) == Refilled(None, r)
  {
    RefillScales(r.capacity, r.now - b.lastRefillMs, 0);
  }

  lemma TokensStayNonNegative(b: Option<Bucket>, r: Request)
    requires Proper(r) && (b.Some? ==> b.value.tokens >= 0.0)
    ensures After(b, r).tokens >= 0.0
  {
    if b.Some? {
      RefillScales(r.capacity, Max(0, r.now - b.value.lastRefillMs), 0);
    }
  }

  // ---- when dropping a bucket is safe ----------------------------------------------

  /** When a key is asked for next. */
  function NextUse(rs: seq<Request>, key: string): Option<int> {
    if rs == [] then None else if rs[0].key == key then Some(rs[0].now) else NextUse(rs[1..], key)
  }

  /** The next use of the key, if any, comes a whole window after `last`. */
  predicate IdleUntilUsed(rs: seq<Request>, key: string, last: int) {
    NextUse(rs, key).Some? ==> last + WINDOW_MS <= NextUse(rs, key).value
  }

  /**
   * The clock may step back, but not behind the window of a bucket that has
   * already looked stale to some request: such a bucket is not used again
   * before a whole window after its last use.
   */
  predicate Tame(last: map<string, int>, rs: seq<Request>)
    decreases |rs|
  {
    rs == []
    || ((forall k | k in last && last[k] < rs[0].now - WINDOW_MS :: IdleUntilUsed(rs, k, last[k]))
        && Tame(last[rs[0].key := rs[0].now], rs[1..]))
  }

  lemma {:induction false} LaterUse(rs: seq<Request>, key: string, from: int)
    requires Monotone(rs, from)
    ensures NextUse(rs, key).Some? ==> from <= NextUse(rs, key).value
    decreases |rs|
  {
    if rs != [] {
      LaterUse(rs[1..], key, rs[0].now);
    }
  }

  /** A clock that never steps back is tame. */
  lemma {:induction false} MonotoneIsTame(last: map<string, int>, rs: seq<Request>, from: int)
    requires Monotone(rs, from)
    ensures Tame(last, rs)
    decreases |rs|
  {
    if rs != [] {
      forall k | k in last && last[k] < rs[0].now - WINDOW_MS ensures IdleUntilUsed(rs, k, last[k]) {
        LaterUse(rs, k, rs[0].now);
      }
      MonotoneIsTame(last[rs[0].key := rs[0].now], rs[1..], rs[0].now);
    }
  }

  function LastUses(m: Buckets): map<string, int> {
    map k | k in m :: m[k].lastRefillMs
  }

  /** `kept` lacks only buckets that are full again before they are used. */
  ghost predicate Thinned(full: Buckets, kept: Buckets, rs: seq<Request>) {
    && (forall k | k in full :: full[k].tokens >= 0.0)
    && (forall k | k in kept :: k in full && kept[k] == full[k])
    && (forall k | k in full && k !in kept :: IdleUntilUsed(rs, k, full[k].lastRefillMs))
  }

  lemma ThinnedAnswersAlike(full: Buckets, kept: Buckets, rs: seq<Request>)
    requires rs != [] && Thinned(full, kept, rs) && Proper(rs[0])
    ensures var r := rs[0];
            && Reply(Lookup(kept, r.key), r) == Reply(Lookup(full, r.key), r)
            && After(Lookup(kept, r.key), r) == After(Lookup(full, r.key), r)
            && Thinned(full[r.key := After(Lookup(full, r.key), r)], kept[r.key := After(Lookup(kept, r.key), r)], rs[1..])
  {
    var r := rs[0];
    if r.key in full && r.key !in kept {
      assert IdleUntilUsed(rs, r.key, full[r.key].lastRefillMs);
      IdleIsFull(full[r.key], r);
    }
    TokensStayNonNegative(Lookup(full, r.key), r);
    hide Refilled;
  }

  // ---- the in-process map --------------------------------------------------------

  function Fresh(m: Buckets, now: int): Buckets {
    map k | k in m && m[k].lastRefillMs >= now - WINDOW_MS :: m[k]
  }

  function Trimmed(m: Buckets, threshold: nat, now: int): Buckets {
    if |m| >= threshold then Fresh(m, now) else m
  }

  function MemoryRun(m: Buckets, threshold: nat, rs: seq<Request>): seq<Answer>
    decreases |rs|
  {
    if rs == [] then []
    else
      var t := Trimmed(m, threshold, rs[0].now);
      [Reply(Lookup(t, rs[0].key), rs[0])] + MemoryRun(t[rs[0].key := After(Lookup(t, rs[0].key), rs[0])], threshold, rs[1..])
  }

  class MemoryLimiter {
    var memoryBuckets: Buckets
    var cleanupThreshold: nat

    constructor (cleanupThreshold: nat)
      ensures memoryBuckets == map[] && this.cleanupThreshold == cleanupThreshold
    {
      memoryBuckets := map[];
      this.cleanupThreshold := cleanupThreshold;
    }

    method CleanupStaleBuckets(now: int)
      modifies this`memoryBuckets
      ensures memoryBuckets == Fresh(old(memoryBuckets), now)
    {
      var left := memoryBuckets.Keys;
      while left != {}
        invariant left <= old(memoryBuckets).Keys
        invariant memoryBuckets == map k | k in old(memoryBuckets)
                    && (k in left || old(memoryBuckets)[k].lastRefillMs >= now - WINDOW_MS) :: old(memoryBuckets)[k]
        decreases left
      {
        var key :| key in left;
        if memoryBuckets[key].lastRefillMs < now - WINDOW_MS {
          memoryBuckets := memoryBuckets - {key};
        }
        left := left - {key};
      }
    }

    method ConsumeMemory(r: Request) returns (a: Answer)
      modifies this`memoryBuckets
      ensures var t := Trimmed(old(memoryBuckets), cleanupThreshold, r.now);
              && a == Reply(Lookup(t, r.key), r)
              && memoryBuckets == t[r.key := After(Lookup(t, r.key), r)]
      // refilled for the time since its last use, up to the capacity; taken if there is enough; rounded down
      ensures var t := if |old(memoryBuckets)| >= cleanupThreshold
                       then map k | k in old(memoryBuckets) && old(memoryBuckets)[k].lastRefillMs >= r.now - WINDOW_MS :: old(memoryBuckets)[k]
                       else old(memoryBuckets);
              && r.key in memoryBuckets && memoryBuckets == t[r.key := memoryBuckets[r.key]]
              && Served(if r.key in t then Some(t[r.key]) else None, r, a, memoryBuckets[r.key])
    {
      if |memoryBuckets| >= cleanupThreshold {
        CleanupStaleBuckets(r.now);
      }
      var tokensNow, lastRefill := r.capacity, r.now;
      if r.key in memoryBuckets {
        tokensNow, lastRefill := memoryBuckets[r.key].tokens, memoryBuckets[r.key].lastRefillMs;
      }
      var delta := Inflow(r.capacity, Max(0, r.now - lastRefill));
      var refilled := MinReal(r.capacity, tokensNow + delta);
      var allowed := refilled >= r.tokens;
      var nextTokens := refilled - if allowed then r.tokens else 0.0;
      memoryBuckets := memoryBuckets[r.key := Bucket(nextTokens, r.now)];
      ReplyServes(Lookup(Trimmed(old(memoryBuckets), cleanupThreshold, r.now), r.key), r);
      hide Served;
      return Answer(allowed, nextTokens.Floor);
    }
  }

  lemma TrimmedIsThinned(full: Buckets, kept: Buckets, threshold: nat, rs: seq<Request>)
    requires rs != [] && Thinned(full, kept, rs) && Tame(LastUses(full), rs)
    ensures Thinned(full, Trimmed(kept, threshold, rs[0].now), rs)
  {
    var t := Trimmed(kept, threshold, rs[0].now);
    forall k | k in full && k !in t ensures IdleUntilUsed(rs, k, full[k].lastRefillMs) {
      if k in kept {
        assert LastUses(full)[k] < rs[0].now - WINDOW_MS;
      }
    }
    hide IdleUntilUsed;
  }

  /** Dropping idle buckets, at whatever threshold, changes no answer, as long as the clock is tame. */
  lemma {:induction false} CleanupInvisible(full: Buckets, kept: Buckets, threshold: nat, rs: seq<Request>)
    requires Thinned(full, kept, rs) && Tame(LastUses(full), rs) && AllProper(rs)
    ensures MemoryRun(kept, threshold, rs) == Reference(full, rs)
    decreases |rs|
  {
    if rs != [] {
      var r := rs[0];
      var t := Trimmed(kept, threshold, r.now);
      assert r in rs;
      TrimmedIsThinned(full, kept, threshold, rs);
      ThinnedAnswersAlike(full, t, rs);
      var b := After(Lookup(full, r.key), r);
      assert b.lastRefillMs == r.now;
      assert LastUses(full[r.key := b]) == LastUses(full)[r.key := r.now];
      assert Tame(LastUses(full[r.key := b]), rs[1..]);
      hide Thinned, Tame, After, Reply, Trimmed, LastUses;
      CleanupInvisible(full[r.key := b], t[r.key := b], threshold, rs[1..]);
    }
  }

  lemma NotTame(last: map<string, int>, rs: seq<Request>, k: string)
    requires rs != [] && k in last && last[k] < rs[0].now - WINDOW_MS && !IdleUntilUsed(rs, k, last[k])
    ensures !Tame(last, rs)
  {
  }

  /** Without it they do change: a bucket dropped as stale is full again when the clock steps back. */
  lemma ClockStepBackShowsCleanup(a: string, b: string)
    requires a != b
    ensures var rs := [Request(a, 0, 1.0, 1.0), Request(b, WINDOW_MS + 1, 1.0, 1.0), Request(a, 1, 1.0, 1.0)];
            && |MemoryRun(map[], 1, rs)| == 3 && MemoryRun(map[], 1, rs)[2].allowed
            && |Reference(map[], rs)| == 3 && !Reference(map[], rs)[2].allowed
            && !Tame(map[], rs)
  {
    var rs := [Request(a, 0, 1.0, 1.0), Request(b, WINDOW_MS + 1, 1.0, 1.0), Request(a, 1, 1.0, 1.0)];
    var empty := Bucket(0.0, 0);
    assert RefillPerMs(1.0) * 1.0 < 1.0;
    assert After(None, rs[0]) == empty && After(None, rs[1]) == Bucket(0.0, WINDOW_MS + 1);
    assert !Allowed(Some(empty), rs[2]) && Allowed(None, rs[2]);
    var m1 := map[a := empty];
    assert map[][a := empty] == m1;
    assert Trimmed(map[], 1, 0) == map[];
    assert Trimmed(m1, 1, WINDOW_MS + 1) == map[];
    var m2 := map[b := Bucket(0.0, WINDOW_MS + 1)];
    assert Trimmed(m2, 1, 1) == m2;
    var tail, last := rs[1..], rs[2..];
    assert tail[0] == rs[1] && tail[1..] == last && last[0] == rs[2] && last[1..] == [];
    hide After, Allowed, Trimmed, RefillPerMs;
    assert MemoryRun(m2, 1, last) == [Reply(None, rs[2])];
    assert MemoryRun(m1, 1, tail) == [Reply(None, rs[1])] + MemoryRun(m2, 1, last);
    assert MemoryRun(map[], 1, rs) == [Reply(None, rs[0])] + MemoryRun(m1, 1, tail);
    var f2 := m1[b := Bucket(0.0, WINDOW_MS + 1)];
    assert Reference(f2, last) == [Reply(Some(empty), rs[2])];
    assert Reference(m1, tail) == [Reply(None, rs[1])] + Reference(f2, last);
    assert Reference(map[], rs) == [Reply(None, rs[0])] + Reference(m1, tail);
    assert NextUse(last, a) == Some(1) && NextUse(tail, a) == Some(1);
    assert !IdleUntilUsed(tail, a, 0);
    NotTame(map[a := 0], tail, a);
    assert map[][a := 0] == map[a := 0];
  }

  // ---- the script, on a store whose keys expire -----------------------------------

  datatype Part = Tokens | Stamp

  datatype Name = Name(key: string, part: Part)

  datatype Entry = Entry(value: real, expireAt: int)

  type Store = map<Name, Entry>

  /** When an expired key disappears: Redis keeps it through its last millisecond, the emulator does not. */
  datatype Engine = Redis | Emulator

  predicate Visible(e: Entry, now: int, engine: Engine) {
    if engine == Redis then now <= e.expireAt else now < e.expireAt
  }

  function Value(s: Store, name: Name, now: int, engine: Engine): Option<real> {
    if name in s && Visible(s[name], now, engine) then Some(s[name].value) else None
  }

  /** What flowed in since the time stamp; negative when the clock went back. */
  function Elapsed(ts: real, r: Request): real {
    (r.now as real - ts) * RefillPerMs(r.capacity)
  }

  /** The script's refill: a clock that went back adds nothing. */
  function Capped(tokens: real, raw: real, capacity: real): real {
    var delta := if raw < 0.0 then 0.0 else raw;
    if tokens + delta > capacity then capacity else tokens + delta
  }

  function Topped(tokens: real, ts: real, r: Request): real {
    Capped(tokens, Elapsed(ts, r), r.capacity)
  }

  function OrElse(v: Option<real>, default: real): real {
    if v.Some? then v.value else default
  }

  /** The script: two reads that may miss independently, two writes with the same expiry. */
  function Script(s: Store, r: Request, engine: Engine): (Answer, Store) {
    var tokens := OrElse(Value(s, Name(r.key, Tokens), r.now, engine), r.capacity);
    var ts := OrElse(Value(s, Name(r.key, Stamp), r.now, engine), r.now as real);
    var full := Topped(tokens, ts, r);
    var left := if full >= r.tokens then full - r.tokens else full;
    (Answer(full >= r.tokens, left.Floor), Written(s, r, left))
  }

  function Written(s: Store, r: Request, left: real): Store {
    s[Name(r.key, Tokens) := Entry(left, r.now + KEY_TTL_MS)][Name(r.key, Stamp) := Entry(r.now as real, r.now + KEY_TTL_MS)]
  }

  function ScriptRun(s: Store, rs: seq<Request>, engine: Engine): seq<Answer>
    decreases |rs|
  {
    if rs == [] then []
    else [Script(s, rs[0], engine).0] + ScriptRun(Script(s, rs[0], engine).1, rs[1..], engine)
  }

  class RedisMemoryClient {
    var store: Store

    constructor ()
      ensures store == map[]
    {
      store := map[];
    }

    /** Reading an expired key deletes it; nothing else changes. */
    method Get(name: Name, now: int) returns (v: Option<real>)
      modifies this
      ensures v == Value(old(store), name, now, Emulator)
      ensures store == if v == None then old(store) - {name} else old(store)
    {
      if name !in store {
        return None;
      }
      if store[name].expireAt <= now {
        store := store - {name};
        return None;
      }
      return Some(store[name].value);
    }

    method Set(name: Name, value: real, ttlMs: int, now: int)
      modifies this
      ensures store == old(store)[name := Entry(value, now + ttlMs)]
    {
      store := store[name := Entry(value, now + ttlMs)];
    }

    method EvalTokenBucket(r: Request) returns (a: Answer)
      modifies this
      ensures a == Script(old(store), r, Emulator).0
      ensures store == Script(old(store), r, Emulator).1
    {
      var rawTokens := Get(Name(r.key, Tokens), r.now);
      var rawTs := Get(Name(r.key, Stamp), r.now);
      var tokens := if rawTokens == None then r.capacity else rawTokens.value;
      var ts := if rawTs == None then r.now as real else rawTs.value;
      ghost var read := tokens;
      var delta := Elapsed(ts, r);
      ghost var raw := delta;
      assert Topped(read, ts, r) == Capped(read, raw, r.capacity);
      hide Topped, Elapsed;
      if delta < 0.0 {
        delta := 0.0;
      }
      tokens := tokens + delta;
      if tokens > r.capacity {
        tokens := r.capacity;
      }
      assert tokens == Topped(read, ts, r);
      var allowed := false;
      if tokens >= r.tokens {
        tokens := tokens - r.tokens;
        allowed := true;
      }
      Set(Name(r.key, Tokens), tokens, KEY_TTL_MS, r.now);
      Set(Name(r.key, Stamp), r.now as real, KEY_TTL_MS, r.now);
      assert store == Written(old(store), r, tokens);
      return Answer(allowed, tokens.Floor);
    }
  }

  /** Both entries of a key hold its bucket and expire together, two windows after its last use. */
  ghost predicate Holds(s: Store, key: string, b: Bucket) {
    && Name(key, Tokens) in s && s[Name(key, Tokens)] == Entry(b.tokens, b.lastRefillMs + KEY_TTL_MS)
    && Name(key, Stamp) in s && s[Name(key, Stamp)] == Entry(b.lastRefillMs as real, b.lastRefillMs + KEY_TTL_MS)
  }

  ghost predicate Stores(full: Buckets, s: Store) {
    && (forall k | k in full :: full[k].tokens >= 0.0 && Holds(s, k, full[k]))
    && (forall n | n in s :: n.key in full)
  }

  /** The script's refill is the reference's, whichever way the clock went. */
  lemma ToppedIsRefilled(b: Bucket, r: Request)
    requires Proper(r)
    ensures Topped(b.tokens, b.lastRefillMs as real, r) == Refilled(Some(b), r)
  {
    var d := r.now - b.lastRefillMs;
    assert r.now as real - b.lastRefillMs as real == d as real;
    RefillScales(r.capacity, d, 0);
    RefillScales(r.capacity, 0, d);
    assert Inflow(r.capacity, 0) == 0.0;
    hide RefillPerMs;
  }

  lemma ScriptRefills(full: Buckets, s: Store, r: Request, engine: Engine)
    requires Stores(full, s) && Proper(r)
    ensures Topped(OrElse(Value(s, Name(r.key, Tokens), r.now, engine), r.capacity),
                   OrElse(Value(s, Name(r.key, Stamp), r.now, engine), r.now as real), r)
         == Refilled(Lookup(full, r.key), r)
  {
    if r.key in full && Visible(s[Name(r.key, Tokens)], r.now, engine) {
      assert Holds(s, r.key, full[r.key]);
      ToppedIsRefilled(full[r.key], r);
    } else {
      assert Value(s, Name(r.key, Tokens), r.now, engine) == None && Value(s, Name(r.key, Stamp), r.now, engine) == None by {
        if r.key in full {
          assert Holds(s, r.key, full[r.key]);
        } else {
          assert Name(r.key, Tokens) !in s && Name(r.key, Stamp) !in s;
        }
      }
      if r.key in full {
        assert Holds(s, r.key, full[r.key]);
        IdleIsFull(full[r.key], r);
      }
    }
  }

  lemma ScriptAnswersAlike(full: Buckets, s: Store, r: Request, engine: Engine)
    requires Stores(full, s) && Proper(r)
    ensures Script(s, r, engine).0 == Reply(Lookup(full, r.key), r)
    ensures Stores(full[r.key := After(Lookup(full, r.key), r)], Script(s, r, engine).1)
  {
    var b := After(Lookup(full, r.key), r);
    ScriptRefills(full, s, r, engine);
    TokensStayNonNegative(Lookup(full, r.key), r);
    var full', s' := full[r.key := b], Script(s, r, engine).1;
    assert s' == Written(s, r, b.tokens);
    hide After, Refilled, Topped;
    forall k | k in full' ensures full'[k].tokens >= 0.0 && Holds(s', k, full'[k]) {
      if k != r.key {
        assert Holds(s, k, full[k]);
      }
    }
  }

  /**
   * The script gives the reference's answers to every sequence of requests,
   * whatever the clock does and whichever engine expires its keys, as long as
   * requests and expiry go by one clock.
   */
  lemma {:induction false} ExpiryInvisible(full: Buckets, s: Store, rs: seq<Request>, engine: Engine)
    requires Stores(full, s) && AllProper(rs)
    ensures ScriptRun(s, rs, engine) == Reference(full, rs)
    decreases |rs|
  {
    if rs != [] {
      var r := rs[0];
      assert r in rs;
      ScriptAnswersAlike(full, s, r, engine);
      hide Stores, Script, After, Reply;
      ExpiryInvisible(full[r.key := After(Lookup(full, r.key), r)], Script(s, r, engine).1, rs[1..], engine);
    }
  }

  /**
   * Script and emulator answer every request sequence alike; the in-process
   * map does too on every tame clock, so in particular on one that never goes
   * back.
   */
  lemma ThreeImplementationsAgree(threshold: nat, rs: seq<Request>)
    requires AllProper(rs)
    ensures ScriptRun(map[], rs, Redis) == Reference(map[], rs) == ScriptRun(map[], rs, Emulator)
    ensures Tame(map[], rs) ==> MemoryRun(map[], threshold, rs) == ScriptRun(map[], rs, Redis)
    ensures rs != [] && Monotone(rs, rs[0].now) ==> Tame(map[], rs)
  {
    ExpiryInvisible(map[], map[], rs, Redis);
    ExpiryInvisible(map[], map[], rs, Emulator);
    assert LastUses(map[]) == map[];
    if Tame(map[], rs) {
      CleanupInvisible(map[], map[], threshold, rs);
    }
    if rs != [] && Monotone(rs, rs[0].now) {
      MonotoneIsTame(map[], rs, rs[0].now);
    }
  }
}
