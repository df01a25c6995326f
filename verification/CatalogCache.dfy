/**
 The catalogue cache: generation-prefixed keys in Redis, falling back for good to
 process memory when any Redis call fails. It refines an expiring map that may
 forget. A Redis call that fails may or may not have taken effect.
 */
module CatalogCache {
  import opened Basics

  type Value = string

  datatype Backend = Disabled | Memory | Remote

  datatype Item = Item(expires: int, value: Value)

  /** A namespaced key: generation and caller's key. */
  type Slot = (int, string)

  datatype Generation = Absent | Number(n: int) | Garbage

  datatype RedisCache = RedisCache(generation: Generation, entries: map<Slot, Item>)

  datatype Cache = Cache(backend: Backend, generation: int, memory: map<Slot, Item>, redis: RedisCache)

  /** How a Redis command ends. */
  datatype Outcome = Works | Fails | FailsAfterEffect

  /** The two commands of a generation lookup: GET, and SET if the key has no number. */
  datatype Outcomes = Outcomes(get: Outcome, set_: Outcome)

  const SWEEP_LIMIT := 5000

  // ----- one operation -----

  function Degraded(c: Cache): Cache { c.(backend := Memory) }

  function CurrentGeneration(g: Generation): int { if g.Number? then g.n else 1 }

  /** The second command of a lookup whose GET answered `seen`: SET NX for an absent key,
      SET for an unreadable one. Once Redis has been given up it fails at once. */
  function Repaired(c: Cache, seen: Generation, o: Outcome): (Cache, int) {
    var written := if seen.Absent? && !c.redis.generation.Absent? then c
                   else c.(redis := c.redis.(generation := Number(1)));
    if !c.backend.Remote? then (c, c.generation)
    else match o
      case Works => (written, 1)
      case Fails => (Degraded(c), c.generation)
      case FailsAfterEffect => (Degraded(written), c.generation)
  }

  /** The generation lookup, both commands in a row. */
  function Lookup(c: Cache, o: Outcomes): (r: (Cache, int)) {
    if !c.backend.Remote? then (c, c.generation)
    else if !o.get.Works? then (Degraded(c), c.generation)
    else if c.redis.generation.Number? then (c, c.redis.generation.n)
    else Repaired(c, c.redis.generation, o.set_)
  }

  function Swept(memory: map<Slot, Item>, now: int): map<Slot, Item> {
    if |memory| > SWEEP_LIMIT then map k | k in memory && memory[k].expires > now :: memory[k] else memory
  }

  /** Reading a slot once the generation is known. */
  function ReadSlot(c: Cache, slot: Slot, now: int, o: Outcome): (Cache, Option<Value>) {
    match c.backend
    case Disabled => (c, None)
    case Remote =>
      if !o.Works? then (Degraded(c), None)
      else if slot in c.redis.entries && now < c.redis.entries[slot].expires then (c, Some(c.redis.entries[slot].value))
      else (c, None)
    case Memory =>
      if slot !in c.memory then (c, None)
      else if c.memory[slot].expires <= now then (c.(memory := c.memory - {slot}), None)
      else (c, Some(c.memory[slot].value))
  }

  /** Writing a slot once the generation is known; a failing Redis write only degrades. */
  function WriteSlot(c: Cache, slot: Slot, item: Item, now: int, o: Outcome): Cache {
    var sent := c.redis.(entries := c.redis.entries[slot := item]);
    match c.backend
    case Disabled => c
    case Memory => c.(memory := Swept(c.memory[slot := item], now))
    case Remote =>
      match o
      case Works => c.(redis := sent)
      case Fails => Degraded(c)
      case FailsAfterEffect => Degraded(c.(redis := sent))
  }

  function Fetched(c: Cache, key: string, now: int, lookup: Outcomes, read: Outcome): (Cache, Option<Value>) {
    if c.backend.Disabled? then (c, None)
    else
      var (d, g) := Lookup(c, lookup);
      ReadSlot(d, (g, key), now, read)
  }

  function Stored(c: Cache, key: string, item: Item, now: int, lookup: Outcomes, write: Outcome): Cache {
    if c.backend.Disabled? then c
    else
      var (d, g) := Lookup(c, lookup);
      var e := WriteSlot(d, (g, key), item, now, write);
      if d.backend.Remote? && e.backend.Memory? then WriteSlot(e, (g, key), item, now, write) else e
  }

  /** INCR counts from an absent key, and is an error on one that holds no number. */
  function Invalidated(c: Cache, o: Outcome): Cache {
    var bumped := c.redis.(generation :=
      match c.redis.generation case Number(n) => Number(n + 1) case Absent => Number(1) case Garbage => Garbage);
    var cleared := c.(generation := c.generation + 1, memory := map[]);
    if !c.backend.Remote? then cleared
    else if o.Works? && !c.redis.generation.Garbage? then c.(redis := bumped)
    else if o.Fails? then Degraded(cleared)
    else Degraded(cleared.(redis := bumped))
  }

  // ----- the service -----

  class CatalogCacheService {
    var backend: Backend
    var generation: int
    var memory: map<Slot, Item>
    var redis: RedisCache
    const ttlSeconds: int

    ghost function State(): Cache
      reads this
    {
      Cache(backend, generation, memory, redis)
    }

    constructor (backend: Backend, ttlSeconds: int, redis: RedisCache)
      ensures State() == Cache(if ttlSeconds <= 0 then Disabled else backend, 1, map[], redis)
      ensures this.ttlSeconds == ttlSeconds
    {
      this.backend := if ttlSeconds <= 0 then Disabled else backend;
      this.generation := 1;
      this.memory := map[];
      this.redis := redis;
      this.ttlSeconds := ttlSeconds;
    }

    method GenerationValue(get: Outcome, set_: Outcome) returns (g: int)
      modifies this
      ensures (State(), g) == Lookup(old(State()), Outcomes(get, set_))
    {
      if backend.Remote? {
        if get.Works? {
          var value := redis.generation;
          if value.Number? { return value.n; }
          if !set_.Fails? { redis := redis.(generation := Number(1)); }
          if set_.Works? { return 1; }
        }
        backend := Memory;
      }
      g := generation;
    }

    method GetJson(key: string, now: int, lookup: Outcomes, read: Outcome) returns (value: Option<Value>)
      modifies this
      ensures (State(), value) == Fetched(old(State()), key, now, lookup, read)
    {
      if backend.Disabled? { return None; }
      var g := GenerationValue(lookup.get, lookup.set_);
      var slot := (g, key);
      if backend.Remote? {
        if !read.Works? {
          backend := Memory;
          return None;
        }
        if slot in redis.entries && now < redis.entries[slot].expires { return Some(redis.entries[slot].value); }
        return None;
      }
      if slot !in memory { return None; }
      var item := memory[slot];
      if item.expires <= now {
        memory := memory - {slot};
        return None;
      }
      return Some(item.value);
    }

    method SetJson(key: string, value: Value, ttl: Option<int>, now: int, lookup: Outcomes, write: Outcome)
      modifies this
      ensures State() == Stored(old(State()), key,
        Item(now + (if ttl.None? then ttlSeconds else Max(1, ttl.value)), value), now, lookup, write)
    {
      if backend.Disabled? { return; }
      var item := Item(now + (if ttl.None? then ttlSeconds else Max(1, ttl.value)), value);
      var g := GenerationValue(lookup.get, lookup.set_);
      var slot := (g, key);
      if backend.Remote? {
        if !write.Fails? { redis := redis.(entries := redis.entries[slot := item]); }
        if write.Works? { return; }
        backend := Memory;
      }
      memory := memory[slot := item];
      if |memory| > SWEEP_LIMIT {
        memory := map k | k in memory && memory[k].expires > now :: memory[k];
      }
    }

    method InvalidateAll(o: Outcome)
      modifies this
      ensures State() == Invalidated(old(State()), o)
    {
      if backend.Remote? {
        if !o.Fails? {
          match redis.generation
          case Number(n) => redis := redis.(generation := Number(n + 1));
          case Absent => redis := redis.(generation := Number(1));
          case Garbage =>
        }
        if o.Works? && !redis.generation.Garbage? { return; }
        backend := Memory;
      }
      generation := generation + 1;
      memory := map[];
    }
  }

  // ----- refinement of an expiring map that may forget -----

  /** The entry a lookup of `key` would find, expired or not. */
  function Visible(c: Cache, key: string): Option<Item> {
    match c.backend
    case Disabled => None
    case Memory => if (c.generation, key) in c.memory then Some(c.memory[(c.generation, key)]) else None
    case Remote =>
      var slot := (CurrentGeneration(c.redis.generation), key);
      if slot in c.redis.entries then Some(c.redis.entries[slot]) else None
  }

  /** While Redis is in use, memory is unused and nothing is stored there under a
      generation that is still to come. (Memory may hold such entries after a fail-over,
      because a failing `set` keeps the Redis generation; invalidation clears them.) */
  ghost predicate Consistent(c: Cache) {
    c.backend.Remote? ==>
      && c.memory == map[]
      && !c.redis.generation.Garbage?
      && (c.redis.generation.Absent? ==> c.redis.entries == map[])
      && forall k :: k in c.redis.entries ==> k.0 <= CurrentGeneration(c.redis.generation)
  }

  /** The ideal map: what was set since the last invalidation. */
  type Ideal = map<string, Item>

  ghost predicate Refines(c: Cache, m: Ideal) {
    forall key :: Visible(c, key).Some? ==> key in m && Visible(c, key) == Some(m[key])
  }

  datatype Call =
    | Get(key: string, now: int, lookup: Outcomes, read: Outcome)
    | Set(key: string, item: Item, now: int, lookup: Outcomes, write: Outcome)
    | Invalidate(o: Outcome)
    | Evict(slots: set<Slot>)                   // Redis drops entries, never the generation key

  function After(c: Cache, call: Call): Cache {
    match call
    case Get(key, now, lookup, read) => Fetched(c, key, now, lookup, read).0
    case Set(key, item, now, lookup, write) => Stored(c, key, item, now, lookup, write)
    case Invalidate(o) => Invalidated(c, o)
    case Evict(slots) => c.(redis := c.redis.(entries := c.redis.entries - slots))
  }

  function IdealAfter(m: Ideal, call: Call): Ideal {
    match call
    case Set(key, item, _, _, _) => m[key := item]
    case Invalidate(_) => map[]
    case _ => m
  }

  lemma LookupRefines(c: Cache, o: Outcomes, m: Ideal)
    requires Consistent(c) && Refines(c, m) && !c.backend.Disabled?
    ensures var (d, g) := Lookup(c, o);
      && Consistent(d) && Refines(d, m) && !d.backend.Disabled?
      && g == (if d.backend.Remote? then CurrentGeneration(d.redis.generation) else d.generation)
      && (d.backend.Remote? ==> d.redis.generation.Number?)
  {
  }

  /** A write to the visible slot of its key, or to any slot of an empty memory. */
  lemma WriteRefines(c: Cache, slot: Slot, item: Item, now: int, o: Outcome, m: Ideal)
    requires Consistent(c) && Refines(c, m)
    requires c.backend.Remote? ==> c.redis.generation == Number(slot.0)
    requires c.backend.Memory? ==> slot.0 == c.generation || c.memory == map[]
    ensures var d := WriteSlot(c, slot, item, now, o);
      && Consistent(d) && Refines(d, m[slot.1 := item])
      && (c.backend.Remote? && d.backend.Memory? ==> d.memory == map[] && Refines(d, m))
  {
  }

  lemma SetRefines(c: Cache, key: string, item: Item, now: int, lookup: Outcomes, write: Outcome, m: Ideal)
    requires Consistent(c) && Refines(c, m)
    ensures var d := Stored(c, key, item, now, lookup, write); Consistent(d) && Refines(d, m[key := item])
  {
    if !c.backend.Disabled? {
      LookupRefines(c, lookup, m);
      var (d, g) := Lookup(c, lookup);
      var slot := (g, key);
      WriteRefines(d, slot, item, now, write, m);
      var e := WriteSlot(d, slot, item, now, write);
      if d.backend.Remote? && e.backend.Memory? {
        WriteRefines(e, slot, item, now, write, m);
      }
    }
  }

  lemma CallRefines(c: Cache, call: Call, m: Ideal)
    requires Consistent(c) && Refines(c, m)
    ensures Consistent(After(c, call)) && Refines(After(c, call), IdealAfter(m, call))
  {
    var d := After(c, call);
    match call
    case Get(key, now, lookup, read) =>
      if !c.backend.Disabled? {
        LookupRefines(c, lookup, m);
        var e := Lookup(c, lookup).0;
        assert forall k :: Visible(d, k).Some? ==> Visible(d, k) == Visible(e, k);
      }
    case Set(key, item, now, lookup, write) => SetRefines(c, key, item, now, lookup, write, m);
    case Invalidate(_) =>
      assert forall k :: Visible(d, k).None?;
    case Evict(_) =>
      assert forall k :: Visible(d, k).Some? ==> Visible(c, k) == Visible(d, k);
  }

  function Final(c: Cache, calls: seq<Call>): Cache {
    if calls == [] then c else After(Final(c, calls[..|calls| - 1]), calls[|calls| - 1])
  }

  /** The item of the last `set` of `key` since the last invalidation. */
  function LastSet(calls: seq<Call>, key: string): Option<Item> {
    if calls == [] then None
    else
      var last := calls[|calls| - 1];
      if last.Invalidate? then None
      else if last.Set? && last.key == key then Some(last.item)
      else LastSet(calls[..|calls| - 1], key)
  }

  ghost predicate Fresh(c: Cache) {
    c.memory == map[] && !c.redis.generation.Garbage? && c.redis.entries == map[]
  }

  lemma {:induction false} RunRefines(c: Cache, calls: seq<Call>) returns (m: Ideal)
    requires Fresh(c)
    ensures Consistent(Final(c, calls)) && Refines(Final(c, calls), m)
    ensures forall key :: LastSet(calls, key) == if key in m then Some(m[key]) else None
  {
    if calls == [] {
      m := map[];
    } else {
      var before := RunRefines(c, calls[..|calls| - 1]);
      CallRefines(Final(c, calls[..|calls| - 1]), calls[|calls| - 1], before);
      m := IdealAfter(before, calls[|calls| - 1]);
    }
  }

  /** After any calls, with Redis failing at any of them, a hit returns the unexpired
      value of the last set of that key since the last invalidation. */
  lemma HitIsLastSet(c: Cache, calls: seq<Call>, key: string, now: int, lookup: Outcomes, read: Outcome)
    requires Fresh(c)
    ensures var hit := Fetched(Final(c, calls), key, now, lookup, read).1;
      hit.Some? ==>
        var item := LastSet(calls, key);
        item.Some? && item.value.value == hit.value && now < item.value.expires
  {
    var m := RunRefines(c, calls);
    var d := Final(c, calls);
    if !d.backend.Disabled? {
      LookupRefines(d, lookup, m);
      var (e, g) := Lookup(d, lookup);
      assert Visible(e, key).Some? ==> key in m && Visible(e, key) == Some(m[key]);
    }
  }

  /** In memory a set writes its entry, and above 5000 entries drops exactly the expired ones. */
  lemma SetInMemory(c: Cache, key: string, item: Item, now: int, lookup: Outcomes, write: Outcome)
    requires c.backend.Memory?
    ensures var written := c.memory[(c.generation, key) := item];
      Stored(c, key, item, now, lookup, write) == c.(memory :=
        if |written| <= 5000 then written else map k | k in written && now < written[k].expires :: written[k])
  {
  }

  /** The commands that the call issues all work. */
  predicate AllWork(c: Cache, call: Call) {
    var found := c.redis.generation.Number?;
    match call
    case Get(_, _, lookup, read) => lookup.get.Works? && (found || lookup.set_.Works?) && read.Works?
    case Set(_, _, _, lookup, write) => lookup.get.Works? && (found || lookup.set_.Works?) && write.Works?
    case Invalidate(o) => o.Works? && !c.redis.generation.Garbage?
    case Evict(_) => true
  }

  /** The fail-over is for good, and happens exactly when a command fails. */
  lemma FailsOverExactly(c: Cache, call: Call)
    ensures After(c, call).backend == if c.backend.Remote? && !AllWork(c, call) then Memory else c.backend
  {
  }

  // ----- nothing is forgotten while Redis answers -----

  /** What the ideal map has, unexpired at `now`, a lookup would find. */
  ghost predicate Remembers(c: Cache, m: Ideal, now: int) {
    forall key :: key in m && now < m[key].expires ==> Visible(c, key) == Some(m[key])
  }

  function TimeOf(call: Call): Option<int> {
    match call
    case Get(_, now, _, _) => Some(now)
    case Set(_, _, now, _, _) => Some(now)
    case _ => None
  }

  /** Redis answers and keeps what it has; memory, once in use, needs no luck. The call is
      made no later than `now`. */
  predicate Reliable(c: Cache, call: Call, now: int) {
    && (c.backend.Remote? ==> AllWork(c, call) && !call.Evict?)
    && (TimeOf(call).Some? ==> TimeOf(call).value <= now)
  }

  predicate AllReliable(c: Cache, calls: seq<Call>, now: int) {
    calls == [] ||
      (AllReliable(c, calls[..|calls| - 1], now)
       && Reliable(Final(c, calls[..|calls| - 1]), calls[|calls| - 1], now))
  }

  lemma SetRemembers(c: Cache, call: Call, m: Ideal, now: int)
    requires Consistent(c) && Remembers(c, m, now) && Reliable(c, call, now) && !c.backend.Disabled? && call.Set?
    ensures Remembers(After(c, call), m[call.key := call.item], now)
  {
    var (d, g) := Lookup(c, call.lookup);
    assert forall k :: Visible(d, k) == Visible(c, k);
    assert After(c, call) == WriteSlot(d, (g, call.key), call.item, call.now, call.write);
  }

  lemma CallRemembers(c: Cache, call: Call, m: Ideal, now: int)
    requires Consistent(c) && Remembers(c, m, now) && Reliable(c, call, now) && !c.backend.Disabled?
    ensures Remembers(After(c, call), IdealAfter(m, call), now) && !After(c, call).backend.Disabled?
  {
    match call
    case Get(key, at, lookup, read) =>
      var (d, g) := Lookup(c, lookup);
      assert forall k :: Visible(d, k) == Visible(c, k);
    case Set(_, _, _, _, _) => SetRemembers(c, call, m, now);
    case _ =>
  }

  lemma {:induction false} RunRemembers(c: Cache, calls: seq<Call>, now: int) returns (m: Ideal)
    requires Fresh(c) && !c.backend.Disabled? && AllReliable(c, calls, now)
    ensures Consistent(Final(c, calls)) && Refines(Final(c, calls), m) && Remembers(Final(c, calls), m, now)
    ensures !Final(c, calls).backend.Disabled?
    ensures forall key :: LastSet(calls, key) == if key in m then Some(m[key]) else None
  {
    if calls == [] {
      m := map[];
    } else {
      var front, last := calls[..|calls| - 1], calls[|calls| - 1];
      var before := RunRemembers(c, front, now);
      CallRefines(Final(c, front), last, before);
      CallRemembers(Final(c, front), last, before, now);
      m := IdealAfter(before, last);
    }
  }

  /** As long as Redis answers, or in memory: a get answers exactly with the value of the last
      set of its key since the last invalidation if that has not expired; every sweep on the
      way, due or not, keeps it. */
  lemma HitExactly(c: Cache, calls: seq<Call>, key: string, now: int, lookup: Outcomes, read: Outcome)
    requires Fresh(c) && !c.backend.Disabled? && AllReliable(c, calls + [Get(key, now, lookup, read)], now)
    ensures var item := LastSet(calls, key);
      Fetched(Final(c, calls), key, now, lookup, read).1
        == if item.Some? && now < item.value.expires then Some(item.value.value) else None
  {
    var all, d := calls + [Get(key, now, lookup, read)], Final(c, calls);
    assert all[..|all| - 1] == calls && all[|all| - 1] == Get(key, now, lookup, read);
    var m := RunRemembers(c, calls, now);
    LookupRefines(d, lookup, m);
    var (e, g) := Lookup(d, lookup);
    assert Visible(e, key) == Visible(d, key);
    assert Visible(e, key).Some? ==> key in m && Visible(e, key) == Some(m[key]);
  }

  /** The entries a lookup would find. */
  function Seen(c: Cache): Ideal {
    map key | key in (set s | s in c.memory :: s.1) + (set s | s in c.redis.entries :: s.1) && Visible(c, key).Some?
      :: Visible(c, key).value
  }

  lemma SeenRefines(c: Cache)
    ensures Refines(c, Seen(c))
  {
    forall key | Visible(c, key).Some? ensures key in Seen(c) {
      var slot := (if c.backend.Memory? then c.generation else CurrentGeneration(c.redis.generation), key);
      assert slot.1 == key && (slot in c.memory || slot in c.redis.entries);
    }
  }

  /** The calls neither set the key again nor invalidate. */
  predicate Spare(calls: seq<Call>, key: string) {
    forall call :: call in calls ==> !call.Invalidate? && (call.Set? ==> call.key != key)
  }

  lemma {:induction false} KeepsRemembering(c: Cache, calls: seq<Call>, m: Ideal, key: string, now: int)
    requires Consistent(c) && !c.backend.Disabled? && AllReliable(c, calls, now) && Spare(calls, key)
    requires key in m && Remembers(c, map[key := m[key]], now)
    ensures Consistent(Final(c, calls)) && !Final(c, calls).backend.Disabled?
    ensures Remembers(Final(c, calls), map[key := m[key]], now)
  {
    if calls != [] {
      var front, last := calls[..|calls| - 1], calls[|calls| - 1];
      assert last in calls && forall call :: call in front ==> call in calls;
      KeepsRemembering(c, front, m, key, now);
      SeenRefines(Final(c, front));
      CallRefines(Final(c, front), last, Seen(Final(c, front)));
      CallRemembers(Final(c, front), last, map[key := m[key]], now);
    }
  }

  /** From every consistent state, also one reached by failures and evictions: what is set while
      Redis answers, or in memory, is found by every get until it expires, is set again or
      everything is invalidated. */
  lemma SetIsFound(c: Cache, set_: Call, calls: seq<Call>, now: int, lookup: Outcomes, read: Outcome)
    requires Consistent(c) && !c.backend.Disabled? && set_.Set? && Reliable(c, set_, now) && now < set_.item.expires
    requires Spare(calls, set_.key)
    requires AllReliable(After(c, set_), calls + [Get(set_.key, now, lookup, read)], now)
    ensures Fetched(Final(After(c, set_), calls), set_.key, now, lookup, read).1 == Some(set_.item.value)
  {
    var key, d, all := set_.key, After(c, set_), calls + [Get(set_.key, now, lookup, read)];
    assert all[..|all| - 1] == calls && all[|all| - 1] == Get(key, now, lookup, read);
    SeenRefines(c);
    CallRefines(c, set_, Seen(c));
    CallRemembers(c, set_, map[], now);
    assert map[][key := set_.item] == map[key := set_.item];
    KeepsRemembering(d, calls, map[key := set_.item], key, now);
    assert Visible(Lookup(Final(d, calls), lookup).0, key) == Visible(Final(d, calls), key);
  }
}
