/**
 * The leased lock of a write token (src/brain/write-guard.service.ts) on a
 * store whose keys expire, with the emulated compare-and-delete of the
 * in-memory client (src/common/redis-memory.client.ts).
 */
module TokenLock {
  import opened Common

  const LEASE_MS := 5000

  /** The owner of a caller that was let through without a lock. */
  const UNLOCKED := "memory"

  datatype Lock = Lock(owner: string, expiresAt: int)

  type Locks = map<string, Lock>

  /** What anybody can still see. */
  function Live(locks: Locks, now: int): Locks {
    map token | token in locks && now < locks[token].expiresAt :: locks[token]
  }

  class LockStore {
    var redisAvailable: bool
    var locks: Locks

    constructor (redisAvailable: bool)
      ensures this.redisAvailable == redisAvailable && locks == map[]
    {
      this.redisAvailable, locks := redisAvailable, map[];
    }

    /** Reading an expired key deletes it. */
    method Get(token: string, now: int) returns (owner: Option<string>)
      modifies this`locks
      ensures owner == if token in Live(old(locks), now) then Some(old(locks)[token].owner) else None
      ensures owner.Some? <==> token in old(locks) && now < old(locks)[token].expiresAt
      ensures Live(locks, now) == Live(old(locks), now)
    {
      if token !in locks {
        return None;
      }
      if locks[token].expiresAt <= now {
        locks := locks - {token};
        return None;
      }
      return Some(locks[token].owner);
    }

    /**
     * SET NX PX with a fresh owner.  Without Redis, or when it does not
     * answer, the caller goes through unlocked.
     */
    method Acquire(token: string, mine: string, answers: bool, now: int) returns (owner: Option<string>)
      modifies this`locks
      ensures !redisAvailable || !answers ==> owner == Some(UNLOCKED) && locks == old(locks)
      ensures redisAvailable && answers ==>
                (owner == None <==> token in old(locks) && now < old(locks)[token].expiresAt)
      ensures redisAvailable && answers && token in Live(old(locks), now) ==>
                owner == None && Live(locks, now) == Live(old(locks), now)
      ensures redisAvailable && answers && token !in Live(old(locks), now) ==>
                && owner == Some(mine)
                && token in locks && locks[token] == Lock(mine, now + 5000)
                && Live(locks, now) == Live(old(locks), now)[token := Lock(mine, now + LEASE_MS)]
    {
      if !redisAvailable || !answers {
        return Some(UNLOCKED);
      }
      var current := Get(token, now);
      if current.Some? {
        return None;
      }
      locks := locks[token := Lock(mine, now + LEASE_MS)];
      return Some(mine);
    }

    /** Compare-and-delete: a live lock goes away exactly when its own owner releases it. */
    method Release(token: string, owner: string, answers: bool, now: int)
      modifies this`locks
      ensures Live(locks, now)
           == if redisAvailable && answers && owner != UNLOCKED
                 && token in Live(old(locks), now) && old(locks)[token].owner == owner
              then Live(old(locks), now) - {token}
              else Live(old(locks), now)
    {
      if owner == UNLOCKED || !redisAvailable || !answers {
        return;
      }
      var current := Get(token, now);
      if current == Some(owner) {
        locks := locks - {token};
      }
    }
  }
}
