/**
 The fixed-window limiter on its memory backend, and the middleware that combines its
 buckets. Purging old windows is shown to be invisible: the limiter answers as if it
 remembered every check ever made.
 */
module RateLimit {
  import opened Basics
  import opened Strings

  /** Bucket, hashed identifier, window start: the parts of the stored key. */
  datatype Key = Key(bucket: string, id: string, window: int)

  datatype Counter = Counter(count: nat, window: int)

  datatype Verdict = Verdict(allowed: bool, limit: int, remaining: int, retryAfter: int)

  type Counters = map<Key, Counter>

  const PURGE_ABOVE := 20_000

  function WindowStart(now: int, window: int): int
    requires window > 0
  {
    now - now % window
  }

  function RetryAfter(now: int, window: int): int
    requires window > 0
  {
    Max(1, window - (now - WindowStart(now, window)))
  }

  function CountOf(m: Counters, key: Key): nat {
    if key in m && m[key].window == key.window then m[key].count else 0
  }

  function Purged(m: Counters, threshold: int): Counters {
    if |m| > PURGE_ABOVE then map k | k in m && m[k].window >= threshold :: m[k] else m
  }

  function Counted(m: Counters, key: Key, window: int): Counters {
    Purged(m[key := Counter(CountOf(m, key) + 1, key.window)], key.window - window * 2)
  }

  function Judge(count: int, limit: int, retryAfter: int): Verdict {
    Verdict(count <= limit, limit, Max(0, limit - count), retryAfter)
  }

  class RateLimitService {
    var memory: Counters
    const hash: string -> string

    constructor (hash: string -> string)
      ensures memory == map[] && this.hash == hash
    {
      memory := map[];
      this.hash := hash;
    }

    /** Counts one more check of the key, in its window, and allows it up to the limit; above
        20,000 counters those of windows that began more than two windows ago are dropped. */
    method MemoryCheck(key: Key, limit: int, retryAfter: int, window: int) returns (v: Verdict)
      modifies this
      ensures var m := old(memory);
        var count := if key in m && m[key].window == key.window then m[key].count + 1 else 1;
        var counted := m[key := Counter(count, key.window)];
        && v.limit == limit && v.retryAfter == retryAfter
        && (v.allowed <==> count <= limit) && v.remaining == (if count <= limit then limit - count else 0)
        && (|counted| <= 20_000 ==> memory == counted)
        && (|counted| > 20_000 ==>
              memory == map k | k in counted && counted[k].window + 2 * window >= key.window :: counted[k])
      ensures memory == Counted(old(memory), key, window)
      ensures v == Judge(CountOf(old(memory), key) + 1, limit, retryAfter)
    {
      var count := 0;
      if key in memory {
        count := memory[key].count;
        if memory[key].window != key.window { count := 0; }
      }
      count := count + 1;
      memory := memory[key := Counter(count, key.window)];
      if |memory| > PURGE_ABOVE {
        var threshold := key.window - window * 2;
        memory := map k | k in memory && memory[k].window >= threshold :: memory[k];
      }
      v := Verdict(count <= limit, limit, Max(0, limit - count), retryAfter);
    }

    method Check(bucket: string, identifier: string, limit: int, window: int, now: int) returns (v: Verdict)
      requires window > 0
      modifies this
      ensures var key := Key(bucket, hash(identifier), WindowStart(now, window));
        && memory == Counted(old(memory), key, window)
        && v == Judge(CountOf(old(memory), key) + 1, limit, RetryAfter(now, window))
    {
      var start := now - now % window;
      var retryAfter := Max(1, window - (now - start));
      v := MemoryCheck(Key(bucket, hash(identifier), start), limit, retryAfter, window);
    }
  }

  lemma UniqueQuotient(a: int, w: int, q: int, r: int)
    requires w > 0 && a == w * q + r && 0 <= r < w
    ensures a / w == q && a % w == r
  {
    var d := q - a / w;
    assert w * d == w * q - w * (a / w);
    assert d >= 1 ==> w * d >= w;
    assert d <= -1 ==> w * d <= -w;
  }

  /** Times from a window's start on are in that window, then in the next. */
  lemma StartsBetween(t: int, now: int, window: int)
    requires window > 0 && WindowStart(t, window) <= now < WindowStart(t, window) + 2 * window
    ensures WindowStart(now, window) ==
      if now < WindowStart(t, window) + window then WindowStart(t, window) else WindowStart(t, window) + window
  {
    var q := t / window;
    var start := WindowStart(t, window);
    assert start == window * q;
    if now < start + window {
      UniqueQuotient(now, window, q, now - start);
    } else {
      assert window * (q + 1) == start + window;
      UniqueQuotient(now, window, q + 1, now - start - window);
    }
  }

  /** `retry_after` is positive and leads exactly to the start of the next window. */
  lemma RetryReachesNextWindow(now: int, window: int)
    requires window > 0
    ensures var next := now + RetryAfter(now, window);
      RetryAfter(now, window) >= 1 && WindowStart(next, window) == next
    ensures forall t :: now <= t < now + RetryAfter(now, window) ==> WindowStart(t, window) == WindowStart(now, window)
  {
    StartsBetween(now, now + RetryAfter(now, window), window);
    forall t | now <= t < now + RetryAfter(now, window) ensures WindowStart(t, window) == WindowStart(now, window) {
      StartsBetween(now, t, window);
    }
  }

  // ----- the limiter that never forgets -----

  /** The keys of all checks made so far, oldest first. */
  type Checks = seq<Key>

  function Occurrences(h: Checks, key: Key): nat {
    if h == [] then 0 else Occurrences(h[..|h| - 1], key) + if h[|h| - 1] == key then 1 else 0
  }

  /** Windows never go back. */
  ghost predicate Ordered(h: Checks) {
    forall i, j :: 0 <= i <= j < |h| ==> h[i].window <= h[j].window
  }

  function Replay(h: Checks, window: int): Counters {
    if h == [] then map[] else Counted(Replay(h[..|h| - 1], window), h[|h| - 1], window)
  }

  /** Purging is invisible: for every window that can still be asked about, the counter
      is the number of checks made, however many entries were dropped on the way. */
  lemma {:induction false} CountersExact(h: Checks, window: int, key: Key)
    requires window > 0 && Ordered(h)
    requires forall i :: 0 <= i < |h| ==> h[i].window <= key.window
    ensures CountOf(Replay(h, window), key) == Occurrences(h, key)
  {
    if h != [] {
      CountersExact(h[..|h| - 1], window, key);
    }
  }

  /** Whether check number `i` is admitted. */
  function Admits(h: Checks, i: nat, window: int, limit: int): bool
    requires i < |h|
  {
    Judge(CountOf(Replay(h[..i], window), h[i]) + 1, limit, 1).allowed
  }

  function Admitted(h: Checks, key: Key, window: int, limit: int): nat {
    if h == [] then 0
    else
      Admitted(h[..|h| - 1], key, window, limit)
      + if h[|h| - 1] == key && Admits(h, |h| - 1, window, limit) then 1 else 0
  }

  /** Per key and window exactly the first `limit` checks are admitted. */
  lemma {:induction false} AdmittedExactly(h: Checks, key: Key, window: int, limit: nat)
    requires window > 0 && Ordered(h)
    ensures Admitted(h, key, window, limit) == Min(Occurrences(h, key), limit)
  {
    if h != [] {
      var front := h[..|h| - 1];
      AdmittedExactly(front, key, window, limit);
      if h[|h| - 1] == key {
        CountersExact(front, window, key);
      }
    }
  }

  // ----- any `window` consecutive seconds -----

  datatype Timed = Timed(bucket: string, id: string, now: int)

  function KeyAt(c: Timed, window: int): Key
    requires window > 0
  {
    Key(c.bucket, c.id, WindowStart(c.now, window))
  }

  function Keys(cs: seq<Timed>, window: int): (h: Checks)
    requires window > 0
    ensures |h| == |cs| && forall i :: 0 <= i < |cs| ==> h[i] == KeyAt(cs[i], window)
  {
    seq(|cs|, i requires 0 <= i < |cs| => KeyAt(cs[i], window))
  }

  ghost predicate InOrder(cs: seq<Timed>) {
    forall i, j :: 0 <= i <= j < |cs| ==> cs[i].now <= cs[j].now
  }

  lemma WindowsInOrder(t: int, now: int, window: int)
    requires window > 0 && t <= now
    ensures WindowStart(t, window) <= WindowStart(now, window)
  {
    if now < WindowStart(t, window) + window { StartsBetween(t, now, window); }
  }

  lemma KeysOrdered(cs: seq<Timed>, window: int)
    requires window > 0 && InOrder(cs)
    ensures Ordered(Keys(cs, window))
  {
    forall i, j | 0 <= i <= j < |cs| ensures Keys(cs, window)[i].window <= Keys(cs, window)[j].window {
      WindowsInOrder(cs[i].now, cs[j].now, window);
    }
  }

  /** Admitted checks of one identifier from second `t` to second `t + window - 1`. */
  function AdmittedIn(cs: seq<Timed>, bucket: string, id: string, t: int, window: int, limit: int): nat
    requires window > 0
  {
    if cs == [] then 0
    else
      var last := cs[|cs| - 1];
      AdmittedIn(cs[..|cs| - 1], bucket, id, t, window, limit)
      + if last.bucket == bucket && last.id == id && t <= last.now < t + window
           && Admits(Keys(cs, window), |cs| - 1, window, limit) then 1 else 0
  }

  lemma {:induction false} InTwoWindows(cs: seq<Timed>, bucket: string, id: string, t: int, window: int, limit: int)
    requires window > 0
    ensures var start := WindowStart(t, window);
      AdmittedIn(cs, bucket, id, t, window, limit)
        <= Admitted(Keys(cs, window), Key(bucket, id, start), window, limit)
         + Admitted(Keys(cs, window), Key(bucket, id, start + window), window, limit)
  {
    if cs != [] {
      var front, last := cs[..|cs| - 1], cs[|cs| - 1];
      InTwoWindows(front, bucket, id, t, window, limit);
      assert Keys(cs, window)[..|cs| - 1] == Keys(front, window);
      if t <= last.now < t + window { StartsBetween(t, last.now, window); }
    }
  }

  /** With time that never goes back, no identifier gets more than twice the limit
      through in any `window` consecutive seconds. */
  lemma BurstBound(cs: seq<Timed>, bucket: string, id: string, t: int, window: int, limit: nat)
    requires window > 0 && InOrder(cs)
    ensures AdmittedIn(cs, bucket, id, t, window, limit) <= 2 * limit
  {
    var start := WindowStart(t, window);
    KeysOrdered(cs, window);
    InTwoWindows(cs, bucket, id, t, window, limit);
    AdmittedExactly(Keys(cs, window), Key(bucket, id, start), window, limit);
    AdmittedExactly(Keys(cs, window), Key(bucket, id, start + window), window, limit);
  }

  // ----- the middleware -----

  const WINDOW := 60

  datatype Settings = Settings(enabled: bool, publicLimit: nat, tokenLimit: nat, tokenIpLimit: nat, adminLimit: nat)

  /** Header and cookie values are empty when absent. */
  datatype Request = Request(path: string, authorization: string, tokenHeader: string, cookie: string,
                             client: Option<string>)

  datatype Planned = Planned(bucket: string, identifier: string, limit: int)

  function Credential(r: Request, fold: char -> string): string {
    if "bearer " <= Casefold(fold, r.authorization)
    then Strip(if |r.authorization| < 7 then "" else r.authorization[7..])
    else Strip(r.tokenHeader)
  }

  function ClientIp(r: Request): string { if r.client.None? then "unknown" else r.client.value }

  predicate IsApi(r: Request) {
    && r.path != "/api/v1/health" && r.path != "/api/v1/ready"
    && !("/admin" <= r.path) && !("/auth" <= r.path) && "/api/v1" <= r.path
  }

  /** The checks one request makes; none when it is not limited. */
  function Plan(r: Request, s: Settings, fold: char -> string): seq<Planned> {
    if !s.enabled || r.path == "/api/v1/health" || r.path == "/api/v1/ready" then []
    else if "/admin" <= r.path || "/auth" <= r.path then
      [Planned("admin", if r.cookie != "" then r.cookie else ClientIp(r), s.adminLimit)]
    else if "/api/v1" <= r.path then
      var credential := Credential(r, fold);
      if credential != "" then
        [Planned("token", credential, s.tokenLimit), Planned("token-ip", ClientIp(r), s.tokenIpLimit)]
      else [Planned("public", ClientIp(r), s.publicLimit)]
    else []
  }

  /** Who an administrator's request is counted for: its cookie, or its address without one. */
  ghost predicate IsOf(r: Request, id: string) { if r.cookie != "" then id == r.cookie else From(r, id) }

  ghost predicate From(r: Request, ip: string) { r.client == Some(ip) || (r.client.None? && ip == "unknown") }

  /** The credential of a request: what follows "bearer " in any case, or else the token header;
      empty when there is none. */
  ghost predicate Bears(r: Request, fold: char -> string, credential: string) {
    if "bearer " <= Casefold(fold, r.authorization)
    then credential == Strip(if |r.authorization| < 7 then "" else r.authorization[7..])
    else credential == Strip(r.tokenHeader)
  }

  /** What is checked, and against which limit. */
  lemma PlanExactly(r: Request, s: Settings, fold: char -> string)
    ensures var plan := Plan(r, s, fold);
      var bypassed := !s.enabled || r.path in {"/api/v1/health", "/api/v1/ready"}
        || !("/admin" <= r.path || "/auth" <= r.path || "/api/v1" <= r.path);
      && (plan == [] <==> bypassed)
      && (!bypassed && ("/admin" <= r.path || "/auth" <= r.path) ==>
            forall id :: IsOf(r, id) ==> plan == [Planned("admin", id, s.adminLimit)])
      && (!bypassed && !("/admin" <= r.path || "/auth" <= r.path) ==>
            forall ip, credential :: From(r, ip) && Bears(r, fold, credential) ==>
              plan == if credential == "" then [Planned("public", ip, s.publicLimit)]
                      else [Planned("token", credential, s.tokenLimit), Planned("token-ip", ip, s.tokenIpLimit)])
  {
  }

  lemma OneVerdict(m: Counters, plan: seq<Planned>, clock: nat -> int, hash: string -> string)
    requires |plan| == 1
    ensures var vs := Verdicts(m, plan, clock, hash).1;
      var key := Key(plan[0].bucket, hash(plan[0].identifier), WindowStart(clock(0), 60));
      && |vs| == 1 && (vs[0].allowed <==> CountOf(m, key) < plan[0].limit)
  {
    assert plan[..0] == [];
  }

  lemma TwoVerdicts(m: Counters, plan: seq<Planned>, clock: nat -> int, hash: string -> string)
    requires |plan| == 2
    ensures var vs := Verdicts(m, plan, clock, hash).1;
      var first := Key(plan[0].bucket, hash(plan[0].identifier), WindowStart(clock(0), 60));
      var second := Key(plan[1].bucket, hash(plan[1].identifier), WindowStart(clock(1), 60));
      && |vs| == 2 && (vs[0].allowed <==> CountOf(m, first) < plan[0].limit)
      && (vs[1].allowed <==> CountOf(Counted(m, first, 60), second) < plan[1].limit)
  {
    OneVerdict(m, plan[..1], clock, hash);
    assert plan[..1][..0] == [];
  }

  /** The checks of one request with no other in between; check `i` is made at `clock(i)`. */
  function Verdicts(m: Counters, plan: seq<Planned>, clock: nat -> int, hash: string -> string)
    : (r: (Counters, seq<Verdict>))
    ensures |r.1| == |plan|
  {
    if plan == [] then (m, [])
    else
      var (before, earlier) := Verdicts(m, plan[..|plan| - 1], clock, hash);
      var c, now := plan[|plan| - 1], clock(|plan| - 1);
      var key := Key(c.bucket, hash(c.identifier), WindowStart(now, WINDOW));
      (Counted(before, key, WINDOW), earlier + [Judge(CountOf(before, key) + 1, c.limit, RetryAfter(now, WINDOW))])
  }

  predicate AllAllowed(vs: seq<Verdict>) { forall i :: 0 <= i < |vs| ==> vs[i].allowed }

  /** The verdict the headers report: the first refusal, or else one with the least remaining. */
  ghost predicate Reported(vs: seq<Verdict>, v: Verdict) {
    exists k :: 0 <= k < |vs| && vs[k] == v
      && (if AllAllowed(vs)
          then (forall i :: 0 <= i < |vs| ==> v.remaining <= vs[i].remaining)
               && (forall i :: 0 <= i < k ==> v.remaining < vs[i].remaining)
          else !v.allowed && forall i :: 0 <= i < k ==> vs[i].allowed)
  }

  datatype Response = Bypassed | Passed(headers: Verdict) | Refused(headers: Verdict)

  method Effective(results: seq<Verdict>) returns (v: Verdict)
    requires results != []
    ensures Reported(results, v) && v.allowed == AllAllowed(results)
  {
    var k := 0;
    while k < |results| && results[k].allowed
      invariant 0 <= k <= |results|
      invariant forall j :: 0 <= j < k ==> results[j].allowed
    {
      k := k + 1;
    }
    if k < |results| { return results[k]; }
    var least := 0;
    k := 1;
    while k < |results|
      invariant 0 <= least < k <= |results|
      invariant forall j :: 0 <= j < k ==> results[least].remaining <= results[j].remaining
      invariant forall j :: 0 <= j < least ==> results[least].remaining < results[j].remaining
    {
      if results[k].remaining < results[least].remaining { least := k; }
      k := k + 1;
    }
    return results[least];
  }

  class RateLimitMiddleware {
    const service: RateLimitService
    const settings: Settings
    const fold: char -> string

    constructor (service: RateLimitService, settings: Settings, fold: char -> string)
      ensures this.service == service && this.settings == settings && this.fold == fold
    {
      this.service := service;
      this.settings := settings;
      this.fold := fold;
    }

    /** All planned checks, in order. */
    method CheckAll(plan: seq<Planned>, clock: nat -> int) returns (results: seq<Verdict>)
      modifies service
      ensures (service.memory, results) == Verdicts(old(service.memory), plan, clock, service.hash)
    {
      results := [];
      var i := 0;
      while i < |plan|
        invariant 0 <= i <= |plan|
        invariant (service.memory, results) == Verdicts(old(service.memory), plan[..i], clock, service.hash)
      {
        assert plan[..i + 1][..i] == plan[..i];
        var v := service.Check(plan[i].bucket, plan[i].identifier, plan[i].limit, WINDOW, clock(i));
        results := results + [v];
        i := i + 1;
      }
      assert plan[..i] == plan;
    }

    /** Every planned check is made and counted, refused or not; the request passes
        exactly when all of them allow it. Not limited are the two probes and what is under none
        of the three prefixes. A request with one check passes up to the limit of its counter. */
    method Dispatch(r: Request, clock: nat -> int) returns (response: Response)
      modifies service
      ensures response.Bypassed? <==>
        || !settings.enabled || r.path in {"/api/v1/health", "/api/v1/ready"}
        || !("/admin" <= r.path || "/auth" <= r.path || "/api/v1" <= r.path)
      ensures response.Bypassed? ==> service.memory == old(service.memory)
      ensures !response.Bypassed? && ("/admin" <= r.path || "/auth" <= r.path) ==>
        forall id :: IsOf(r, id) ==>
          var key := Key("admin", service.hash(id), WindowStart(clock(0), 60));
          response.Passed? <==> CountOf(old(service.memory), key) < settings.adminLimit
      ensures !response.Bypassed? && !("/admin" <= r.path || "/auth" <= r.path) && Bears(r, fold, "") ==>
        forall ip :: From(r, ip) ==>
          var key := Key("public", service.hash(ip), WindowStart(clock(0), 60));
          response.Passed? <==> CountOf(old(service.memory), key) < settings.publicLimit
      ensures !response.Bypassed? && !("/admin" <= r.path || "/auth" <= r.path) ==>
        forall ip, credential :: From(r, ip) && Bears(r, fold, credential) && credential != "" ==>
          var first := Key("token", service.hash(credential), WindowStart(clock(0), 60));
          var second := Key("token-ip", service.hash(ip), WindowStart(clock(1), 60));
          var m := old(service.memory);
          response.Passed? <==>
            CountOf(m, first) < settings.tokenLimit && CountOf(Counted(m, first, 60), second) < settings.tokenIpLimit
      ensures service.memory == Verdicts(old(service.memory), Plan(r, settings, fold), clock, service.hash).0
      ensures var vs := Verdicts(old(service.memory), Plan(r, settings, fold), clock, service.hash).1;
        && (response.Bypassed? <==> vs == [])
        && (response.Refused? <==> !AllAllowed(vs))
        && (!response.Bypassed? ==> Reported(vs, response.headers))
    {
      PlanExactly(r, settings, fold);
      var results := CheckAll(Plan(r, settings, fold), clock);
      ghost var plan, before := Plan(r, settings, fold), old(service.memory);
      if |plan| == 1 { OneVerdict(before, plan, clock, service.hash); }
      if |plan| == 2 { TwoVerdicts(before, plan, clock, service.hash); }
      if results == [] { return Bypassed; }
      var v := Effective(results);
      return if v.allowed then Passed(v) else Refused(v);
    }
  }

  // ----- what one address gets through -----

  /** One check of one request: requests interleave between their checks. */
  datatype Turn = Turn(request: nat, now: int)

  datatype World = World(requests: seq<Request>, settings: Settings, fold: char -> string, hash: string -> string)

  function PlanOf(w: World, r: nat): seq<Planned> {
    if r < |w.requests| then Plan(w.requests[r], w.settings, w.fold) else []
  }

  function Done(turns: seq<Turn>, r: nat): nat {
    if turns == [] then 0 else Done(turns[..|turns| - 1], r) + if turns[|turns| - 1].request == r then 1 else 0
  }

  /** Every turn is the next check of its request. */
  predicate Legal(w: World, turns: seq<Turn>) {
    turns == [] ||
      var front, r := turns[..|turns| - 1], turns[|turns| - 1].request;
      Legal(w, front) && Done(front, r) < |PlanOf(w, r)|
  }

  /** The check that the last turn makes. */
  function LastCheck(w: World, turns: seq<Turn>): Planned
    requires Legal(w, turns) && turns != []
  {
    var r := turns[|turns| - 1].request;
    PlanOf(w, r)[Done(turns[..|turns| - 1], r)]
  }

  function LastTimed(w: World, turns: seq<Turn>): Timed
    requires Legal(w, turns) && turns != []
  {
    Timed(LastCheck(w, turns).bucket, w.hash(LastCheck(w, turns).identifier), turns[|turns| - 1].now)
  }

  function Made(w: World, turns: seq<Turn>): seq<Timed>
    requires Legal(w, turns)
  {
    if turns == [] then [] else Made(w, turns[..|turns| - 1]) + [LastTimed(w, turns)]
  }

  function CountersAfter(h: seq<Timed>): Counters { Replay(Keys(h, WINDOW), WINDOW) }

  function AdmittedOf(h: seq<Timed>, key: Key, limit: int): nat { Admitted(Keys(h, WINDOW), key, WINDOW, limit) }

  predicate LastAdmitted(w: World, turns: seq<Turn>)
    requires Legal(w, turns) && turns != []
  {
    var m := CountersAfter(Made(w, turns[..|turns| - 1]));
    CountOf(m, KeyAt(LastTimed(w, turns), WINDOW)) + 1 <= LastCheck(w, turns).limit
  }

  /** All checks made so far of request `r` were admitted. */
  predicate AllAdmitted(w: World, turns: seq<Turn>, r: nat)
    requires Legal(w, turns)
  {
    turns == [] ||
      (AllAdmitted(w, turns[..|turns| - 1], r) && (turns[|turns| - 1].request == r ==> LastAdmitted(w, turns)))
  }

  /** API requests of one address, administrators' requests of one cookie or address, and API
      requests with one credential. */
  ghost predicate ApiOf(r: Request, ip: string) { IsApi(r) && From(r, ip) }

  ghost predicate AdminOf(r: Request, id: string) {
    && r.path != "/api/v1/health" && r.path != "/api/v1/ready"
    && ("/admin" <= r.path || "/auth" <= r.path) && IsOf(r, id)
  }

  ghost predicate TokenOf(r: Request, fold: char -> string, credential: string) {
    IsApi(r) && credential != "" && Bears(r, fold, credential)
  }

  /** The last turn completes such a request, in the window from `start`, and lets it through. */
  ghost predicate LetsThrough(w: World, turns: seq<Turn>, start: int, such: Request -> bool)
    requires Legal(w, turns) && turns != []
  {
    var last := turns[|turns| - 1];
    && last.request < |w.requests| && such(w.requests[last.request])
    && Done(turns, last.request) == |PlanOf(w, last.request)|
    && AllAdmitted(w, turns, last.request) && WindowStart(last.now, WINDOW) == start
  }

  /** The last turn is the first check of such a request, in the window from `start`, and admits it. */
  ghost predicate LetsIn(w: World, turns: seq<Turn>, start: int, such: Request -> bool)
    requires Legal(w, turns) && turns != []
  {
    var last := turns[|turns| - 1];
    && last.request < |w.requests| && such(w.requests[last.request])
    && Done(turns, last.request) == 1
    && LastAdmitted(w, turns) && WindowStart(last.now, WINDOW) == start
  }

  /** Such requests whose last check falls in the window from `start` and that were let through. */
  ghost function Passed(w: World, turns: seq<Turn>, start: int, such: Request -> bool): nat
    requires Legal(w, turns)
  {
    if turns == [] then 0
    else Passed(w, turns[..|turns| - 1], start, such) + if LetsThrough(w, turns, start, such) then 1 else 0
  }

  /** Such requests whose first check falls in the window from `start` and admits them. */
  ghost function Entered(w: World, turns: seq<Turn>, start: int, such: Request -> bool): nat
    requires Legal(w, turns)
  {
    if turns == [] then 0
    else Entered(w, turns[..|turns| - 1], start, such) + if LetsIn(w, turns, start, such) then 1 else 0
  }

  /** One more check, seen from the counters and from the history. */
  lemma OneMore(h: seq<Timed>, c: Timed, key: Key, limit: int)
    ensures AdmittedOf(h + [c], key, limit) == AdmittedOf(h, key, limit)
      + if KeyAt(c, WINDOW) == key && CountOf(CountersAfter(h), key) + 1 <= limit then 1 else 0
  {
    assert Keys(h + [c], WINDOW)[..|h|] == Keys(h, WINDOW);
  }

  /** Whatever its credential, the last check of an API request is one of its address. */
  lemma AddressCheck(w: World, turns: seq<Turn>, ip: string, start: int, such: Request -> bool)
    requires Legal(w, turns) && turns != [] && LetsThrough(w, turns, start, such)
    requires forall r :: such(r) == ApiOf(r, ip)
    ensures LastAdmitted(w, turns)
    ensures var key := KeyAt(LastTimed(w, turns), WINDOW);
      || (key == Key("public", w.hash(ip), start) && LastCheck(w, turns).limit == w.settings.publicLimit)
      || (key == Key("token-ip", w.hash(ip), start) && LastCheck(w, turns).limit == w.settings.tokenIpLimit)
  {
  }

  /** Every request let through is an admitted check of the address's public or token-ip bucket. */
  lemma {:induction false} PassedAreAdmitted(w: World, turns: seq<Turn>, ip: string, start: int,
                                             such: Request -> bool)
    requires Legal(w, turns) && forall r :: such(r) == ApiOf(r, ip)
    ensures Passed(w, turns, start, such)
      <= AdmittedOf(Made(w, turns), Key("public", w.hash(ip), start), w.settings.publicLimit)
       + AdmittedOf(Made(w, turns), Key("token-ip", w.hash(ip), start), w.settings.tokenIpLimit)
  {
    if turns != [] {
      var front := turns[..|turns| - 1];
      PassedAreAdmitted(w, front, ip, start, such);
      OneMore(Made(w, front), LastTimed(w, turns), Key("public", w.hash(ip), start), w.settings.publicLimit);
      OneMore(Made(w, front), LastTimed(w, turns), Key("token-ip", w.hash(ip), start), w.settings.tokenIpLimit);
      if LetsThrough(w, turns, start, such) { AddressCheck(w, turns, ip, start, such); }
    }
  }

  /** However the checks of concurrent requests interleave, one address gets at most the
      public limit plus the token-ip limit of API requests through per window, whatever
      credentials it sends. */
  lemma AddressBound(w: World, turns: seq<Turn>, ip: string, start: int)
    requires w.settings.enabled && Legal(w, turns) && InOrder(Made(w, turns))
    ensures Passed(w, turns, start, r => ApiOf(r, ip)) <= w.settings.publicLimit + w.settings.tokenIpLimit
  {
    var cs := Made(w, turns);
    KeysOrdered(cs, WINDOW);
    PassedAreAdmitted(w, turns, ip, start, r => ApiOf(r, ip));
    AdmittedExactly(Keys(cs, WINDOW), Key("public", w.hash(ip), start), WINDOW, w.settings.publicLimit);
    AdmittedExactly(Keys(cs, WINDOW), Key("token-ip", w.hash(ip), start), WINDOW, w.settings.tokenIpLimit);
  }

  lemma {:induction false} AdminsAreAdmitted(w: World, turns: seq<Turn>, id: string, start: int,
                                             such: Request -> bool)
    requires w.settings.enabled && Legal(w, turns) && forall r :: such(r) == AdminOf(r, id)
    ensures Passed(w, turns, start, such)
      <= AdmittedOf(Made(w, turns), Key("admin", w.hash(id), start), w.settings.adminLimit)
  {
    if turns != [] {
      var front := turns[..|turns| - 1];
      AdminsAreAdmitted(w, front, id, start, such);
      OneMore(Made(w, front), LastTimed(w, turns), Key("admin", w.hash(id), start), w.settings.adminLimit);
      if LetsThrough(w, turns, start, such) {
        PlanExactly(w.requests[turns[|turns| - 1].request], w.settings, w.fold);
        assert LastCheck(w, turns) == Planned("admin", id, w.settings.adminLimit);
      }
    }
  }

  lemma {:induction false} TokensAreAdmitted(w: World, turns: seq<Turn>, credential: string, start: int,
                                             such: Request -> bool)
    requires w.settings.enabled && Legal(w, turns) && forall r :: such(r) == TokenOf(r, w.fold, credential)
    ensures Entered(w, turns, start, such)
      <= AdmittedOf(Made(w, turns), Key("token", w.hash(credential), start), w.settings.tokenLimit)
  {
    if turns != [] {
      var front := turns[..|turns| - 1];
      TokensAreAdmitted(w, front, credential, start, such);
      OneMore(Made(w, front), LastTimed(w, turns), Key("token", w.hash(credential), start), w.settings.tokenLimit);
      if LetsIn(w, turns, start, such) {
        assert From(w.requests[turns[|turns| - 1].request], ClientIp(w.requests[turns[|turns| - 1].request]));
        PlanExactly(w.requests[turns[|turns| - 1].request], w.settings, w.fold);
        assert LastCheck(w, turns) == Planned("token", credential, w.settings.tokenLimit);
      }
    }
  }

  /** However checks interleave, one cookie, or one address without a cookie, gets at most the
      administrators' limit of requests under /admin and /auth through per window. */
  lemma AdminBound(w: World, turns: seq<Turn>, id: string, start: int)
    requires w.settings.enabled && Legal(w, turns) && InOrder(Made(w, turns))
    ensures Passed(w, turns, start, r => AdminOf(r, id)) <= w.settings.adminLimit
  {
    var cs := Made(w, turns);
    KeysOrdered(cs, WINDOW);
    AdminsAreAdmitted(w, turns, id, start, r => AdminOf(r, id));
    AdmittedExactly(Keys(cs, WINDOW), Key("admin", w.hash(id), start), WINDOW, w.settings.adminLimit);
  }

  /** Nor gets one credential, from however many addresses, more than the token limit of API
      requests past its check per window. */
  lemma CredentialBound(w: World, turns: seq<Turn>, credential: string, start: int)
    requires w.settings.enabled && Legal(w, turns) && InOrder(Made(w, turns))
    ensures Entered(w, turns, start, r => TokenOf(r, w.fold, credential)) <= w.settings.tokenLimit
  {
    var cs := Made(w, turns);
    KeysOrdered(cs, WINDOW);
    TokensAreAdmitted(w, turns, credential, start, r => TokenOf(r, w.fold, credential));
    AdmittedExactly(Keys(cs, WINDOW), Key("token", w.hash(credential), start), WINDOW, w.settings.tokenLimit);
  }
}
