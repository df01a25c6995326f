/**
 The Redis structures behind the durable queue: a list of operation ids, one
 de-duplication marker per queued id, and one lock per running id. Each function
 is one Redis command; the class methods issue them in the order the client does.
 */
module OperationQueue {
  import opened Basics
  import opened OperationStore

  type WorkerId = nat

  const MARKER_TTL := 86_400

  datatype Lock = Lock(holder: WorkerId, expires: int)

  /** `list[0]` is the end LPUSH writes, the last element the one BRPOP takes. */
  datatype Redis = Redis(list: seq<OpId>, markers: map<OpId, int>, locks: map<OpId, Lock>)

  predicate MarkerLive(r: Redis, id: OpId, now: int) { id in r.markers && now < r.markers[id] }

  predicate LockLive(r: Redis, id: OpId, now: int) { id in r.locks && now < r.locks[id].expires }

  /** Whether GET of the lock key answers `w`. */
  predicate HoldsLock(r: Redis, id: OpId, w: WorkerId, now: int) {
    LockLive(r, id, now) && r.locks[id].holder == w
  }

  function MarkerSet(r: Redis, id: OpId, now: int): Redis {
    r.(markers := r.markers[id := now + MARKER_TTL])
  }

  function Pushed(r: Redis, id: OpId): Redis { r.(list := [id] + r.list) }

  function PopShrunk(r: Redis): Redis
    requires r.list != []
  {
    r.(list := r.list[..|r.list| - 1])
  }

  function Unmarked(r: Redis, id: OpId): Redis { r.(markers := r.markers - {id}) }

  function LockSet(r: Redis, id: OpId, w: WorkerId, expires: int): Redis {
    r.(locks := r.locks[id := Lock(w, expires)])
  }

  /** GET then EXPIRE: only the holder's lock is extended. */
  function Refreshed(r: Redis, id: OpId, w: WorkerId, now: int, ttl: nat): Redis {
    if HoldsLock(r, id, w, now) then LockSet(r, id, w, now + ttl) else r
  }

  /** The release transaction, after GET has said whether the lock is ours. */
  function Deleted(r: Redis, id: OpId, owned: bool): Redis {
    r.(locks := if owned then r.locks - {id} else r.locks, markers := r.markers - {id})
  }

  // ----- the queue when no command is interleaved with another client's -----

  function Enqueued(r: Redis, id: OpId, now: int): Redis {
    if MarkerLive(r, id, now) then r else Pushed(MarkerSet(r, id, now), id)
  }

  /** A present marker means the id is waiting in the list. */
  ghost predicate MarkersTruthful(r: Redis, now: int) {
    forall id :: MarkerLive(r, id, now) ==> id in r.list
  }

  class RedisOperationQueue {
    var redis: Redis
    var connected: bool
    const lockTtl: nat

    constructor (lockTtl: nat)
      ensures this.lockTtl == lockTtl && !connected && redis == Redis([], map[], map[])
    {
      this.lockTtl := lockTtl;
      connected := false;
      redis := Redis([], map[], map[]);
    }

    /** After a call on a connected queue the id is in the list whenever markers
        were truthful before; a second call adds no second copy. */
    method Enqueue(id: OpId, now: int) returns (ok: bool)
      modifies this`redis
      ensures ok == connected
      ensures redis == if ok then Enqueued(old(redis), id, now) else old(redis)
      ensures var r, marked := old(redis), id in old(redis).markers && now < old(redis).markers[id];
        redis == if !ok || marked then r else Redis([id] + r.list, r.markers[id := now + 86_400], r.locks)
      ensures ok && MarkersTruthful(old(redis), now) ==> id in redis.list && MarkersTruthful(redis, now)
    {
      if !connected { return false; }
      var created := !MarkerLive(redis, id, now);
      if created {
        redis := MarkerSet(redis, id, now);
        redis := Pushed(redis, id);
      }
      ok := true;
    }

    /** Oldest id first; the marker goes with the popped copy. */
    method Dequeue(now: int) returns (id: Option<OpId>)
      modifies this`redis
      ensures !connected || old(redis.list) == [] ==> id.None? && redis == old(redis)
      ensures connected && old(redis.list) != [] ==>
        && id == Some(old(redis.list)[|old(redis.list)| - 1])
        && redis == Unmarked(PopShrunk(old(redis)), id.value)
        && old(redis.list) == redis.list + [id.value]
        && redis.markers == old(redis.markers) - {id.value} && redis.locks == old(redis.locks)
      ensures MarkersTruthful(old(redis), now) ==> MarkersTruthful(redis, now)
    {
      if !connected || redis.list == [] { return None; }
      var item := redis.list[|redis.list| - 1];
      ghost var before := redis.list;
      redis := PopShrunk(redis);
      redis := Unmarked(redis, item);
      assert forall x :: x in before && x != item ==> x in redis.list by {
        assert before == redis.list + [item];
      }
      id := Some(item);
    }

    method AcquireLock(id: OpId, w: WorkerId, now: int) returns (won: bool)
      modifies this`redis
      ensures won == (connected && !(id in old(redis.locks) && now < old(redis.locks)[id].expires))
      ensures var r := old(redis);
        redis == if won then Redis(r.list, r.markers, r.locks[id := Lock(w, now + lockTtl)]) else r
    {
      won := connected && !LockLive(redis, id, now);
      if won { redis := LockSet(redis, id, w, now + lockTtl); }
    }

    method RefreshLock(id: OpId, w: WorkerId, now: int)
      modifies this`redis
      ensures redis == if connected then Refreshed(old(redis), id, w, now, lockTtl) else old(redis)
      ensures var r := old(redis);
        var mine := id in r.locks && now < r.locks[id].expires && r.locks[id].holder == w;
        redis == if connected && mine then Redis(r.list, r.markers, r.locks[id := Lock(w, now + lockTtl)]) else r
    {
      if !connected { return; }
      if HoldsLock(redis, id, w, now) { redis := LockSet(redis, id, w, now + lockTtl); }
    }

    /** Another worker's lock survives; this worker's lock and the marker do not. */
    method ReleaseLock(id: OpId, w: WorkerId, now: int)
      modifies this`redis
      ensures redis == if connected then Deleted(old(redis), id, HoldsLock(old(redis), id, w, now)) else old(redis)
      ensures var r := old(redis);
        var mine := id in r.locks && now < r.locks[id].expires && r.locks[id].holder == w;
        redis == if connected then Redis(r.list, r.markers - {id}, if mine then r.locks - {id} else r.locks) else r
      ensures connected ==> !HoldsLock(redis, id, w, now)
      ensures forall other, v :: other != id || v != w ==>
        HoldsLock(redis, other, v, now) == HoldsLock(old(redis), other, v, now)
      ensures MarkersTruthful(old(redis), now) ==> MarkersTruthful(redis, now)
    {
      if !connected { return; }
      var owned := HoldsLock(redis, id, w, now);
      redis := Deleted(redis, id, owned);
    }
  }
}
