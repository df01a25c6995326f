/**
 The durable operation protocol: any number of processes interleave single
 database transactions and single Redis commands, and may die between any two.
 `Enabled` says when a step can happen, `Apply` what it does. Timing and fault
 assumptions are not part of the steps; the theorems name the ones they need.
 */
module OperationProtocol {
  import opened Basics
  import opened OperationStore
  import opened OperationQueue

  /** Where an execution is between its `_log` checkpoints. `Boot(k)` has written
      k of the four bootstrap entries. */
  datatype Stage = Boot(written: nat) | Handler | Final | Duplicate

  const BOOT_ENTRIES := 4

  /** The next thing a process will do. */
  datatype Phase =
    | Idle
    | Enqueuing(todo: seq<OpId>)                 // about to SET the marker of todo[0]
    | Pushing(id: OpId, rest: seq<OpId>)         // marker set, LPUSH not yet done
    | Popped(id: OpId)                           // BRPOP done, marker not yet deleted
    | Dequeued(id: OpId)                         // about to SET the lock
    | Acquired(id: OpId)                         // lock set, row not yet read
    | Fetched(id: OpId)                          // row read as not terminal, not yet marked running
    | Checking(id: OpId, stage: Stage)           // at a checkpoint, cancel flag not yet read
    | Writing(id: OpId, stage: Stage)            // cancel flag read as unset, entry not yet written
    | Refreshing(id: OpId, stage: Stage)         // entry written, lock not yet refreshed
    | Failing(id: OpId, pending: bool)           // an exception was caught, its entry not yet written
    | Settling(id: OpId, outcome: Status, pending: bool) // about to commit the terminal status
    | Closing(id: OpId, outcome: Status)         // status committed, closing entry not yet written
    | Auditing(id: OpId, outcome: Status)        // closing entry written, audit and cache calls under way
    | Releasing(id: OpId, dies: bool)            // about to GET the lock
    | Deleting(id: OpId, owned: bool, dies: bool) // about to run the release transaction

  /** `since` is when the process took its lock, or the id it is in a gap with. */
  datatype Proc = Proc(phase: Phase, alive: bool, since: int)

  /** Bookkeeping no step reads: handler dispatches, dispatches ended by a terminal
      commit, dispatches whose executor died, and completed dequeues. */
  datatype History = History(
    dispatched: multiset<OpId>,
    settled: multiset<OpId>,
    abandoned: multiset<OpId>,
    delivered: multiset<OpId>)

  datatype State = State(
    now: int,
    rows: Table,
    redis: Redis,
    procs: map<WorkerId, Proc>,
    history: History)

  datatype Step =
    | Tick(d: nat)
    | Start(w: WorkerId)
    | Crash(w: WorkerId)
    | Create(w: WorkerId, id: OpId)
    | RequestCancel(id: OpId)
    | Recover(w: WorkerId, queued: seq<OpId>)
    | SetMarker(w: WorkerId)
    | Push(w: WorkerId)
    | Pop(w: WorkerId)
    | Unmark(w: WorkerId)
    | TryLock(w: WorkerId)
    | Fetch(w: WorkerId)
    | Mark(w: WorkerId)
    | Check(w: WorkerId)
    | Write(w: WorkerId, progress: int, level: string, message: string)
    | Refresh(w: WorkerId)
    | Dispatch(w: WorkerId)
    | Return(w: WorkerId)
    | FoundDuplicate(w: WorkerId)
    | Fault(w: WorkerId)                          // an exception inside the `try` of an execution
    | Interrupt(w: WorkerId)                      // the stop signal's cancellation, inside the same `try`
    | Report(w: WorkerId, message: string)        // the exception handler writes its entry
    | Escape(w: WorkerId)                         // anything that leaves the execution uncaught
    | Commit(w: WorkerId, error: string)
    | Close(w: WorkerId, message: string)
    | Warn(w: WorkerId, message: string)          // the audit or the cache call failed
    | Audited(w: WorkerId)
    | ReadLock(w: WorkerId)
    | Release(w: WorkerId)

  // ----- reading a phase -----

  /** The phase belongs to the part of the loop that runs under the lock of `id`. */
  predicate Holding(p: Phase, id: OpId) {
    match p
    case Acquired(x) => x == id
    case Fetched(x) => x == id
    case Checking(x, _) => x == id
    case Writing(x, _) => x == id
    case Refreshing(x, _) => x == id
    case Failing(x, _) => x == id
    case Settling(x, _, _) => x == id
    case Closing(x, _) => x == id
    case Auditing(x, _) => x == id
    case Releasing(x, _) => x == id
    case Deleting(x, _, _) => x == id
    case _ => false
  }

  predicate HoldingAny(p: Phase) {
    || p.Acquired? || p.Fetched? || p.Checking? || p.Writing? || p.Refreshing? || p.Failing? || p.Settling?
    || p.Closing? || p.Auditing? || p.Releasing? || p.Deleting?
  }

  /** Inside the `try` of an execution: an exception fails the operation and the stop
      signal cancels it. The handlers of the `try` are not inside it. */
  predicate Trying(p: Phase) {
    || p.Acquired? || p.Fetched? || ((p.Checking? || p.Writing? || p.Refreshing?) && !p.stage.Duplicate?)
    || ((p.Settling? || p.Closing? || p.Auditing?) && p.outcome.Succeeded?)
  }

  /** The handler was dispatched and no terminal status has been committed since. */
  predicate AfterDispatch(st: Stage) { !st.Boot? }

  predicate Pending(p: Phase, id: OpId) {
    match p
    case Checking(x, st) => x == id && AfterDispatch(st)
    case Writing(x, st) => x == id && AfterDispatch(st)
    case Refreshing(x, st) => x == id && AfterDispatch(st)
    case Failing(x, pending) => x == id && pending
    case Settling(x, _, pending) => x == id && pending
    case _ => false
  }

  predicate PendingAny(p: Phase) {
    || ((p.Checking? || p.Writing? || p.Refreshing?) && AfterDispatch(p.stage))
    || ((p.Failing? || p.Settling?) && p.pending)
  }

  /** The row was read as not terminal and the execution has not settled it yet. */
  predicate Engaged(p: Phase, id: OpId) {
    && (p.Fetched? || p.Checking? || p.Writing? || p.Refreshing? || ((p.Failing? || p.Settling?) && p.pending))
    && p.id == id
  }

  /** Between the two commands of an enqueue or of a dequeue of `id`. */
  predicate InGap(p: Phase, id: OpId) { (p.Pushing? || p.Popped?) && p.id == id }

  predicate Live(s: State, w: WorkerId) { w in s.procs && s.procs[w].alive }

  predicate At(s: State, w: WorkerId, id: OpId) { Live(s, w) && Holding(s.procs[w].phase, id) }

  function PhaseOf(s: State, w: WorkerId): Phase
    requires w in s.procs
  {
    s.procs[w].phase
  }

  // ----- the steps -----

  function NextEnqueue(todo: seq<OpId>): Phase { if todo == [] then Idle else Enqueuing(todo) }

  /** Level of a checkpoint's entry; the handler chooses its own. */
  function StageLevel(st: Stage, level: string): string {
    match st
    case Boot(k) => if k == 0 then "notice" else "debug"
    case Handler => level
    case Final => "debug"
    case Duplicate => "notice"
  }

  /** Progress value a checkpoint writes; the handler chooses its own. */
  function StageProgress(st: Stage, progress: int): int {
    match st
    case Boot(k) => k + 1
    case Handler => progress
    case Final => 98
    case Duplicate => 100
  }

  function ClosingLevel(outcome: Status): string {
    match outcome case Failed => "error" case Cancelled => "warning" case Skipped => "notice" case _ => "info"
  }

  function ClosingProgress(outcome: Status): Option<int> {
    if outcome.Succeeded? || outcome.Skipped? then Some(100) else None
  }

  function AfterEntry(id: OpId, st: Stage): Phase {
    match st
    case Boot(k) => Checking(id, Boot(k + 1))
    case Handler => Checking(id, Handler)
    case Final => Settling(id, Succeeded, true)
    case Duplicate => Settling(id, Skipped, true)
  }

  predicate Enabled(s: State, e: Step) {
    match e
    case Tick(_) => true
    case Start(w) => w !in s.procs
    case Crash(w) => Live(s, w)
    case Create(w, id) => Live(s, w) && PhaseOf(s, w).Idle? && id !in s.rows
    case RequestCancel(id) => id in s.rows
    case Recover(w, queued) =>
      && Live(s, w) && PhaseOf(s, w).Idle? && Distinct(queued)
      && (forall id :: id in queued ==> id in s.rows && s.rows[id].status.Queued?)
      && (forall id :: id in s.rows && s.rows[id].status.Queued? ==> id in queued)
    case SetMarker(w) => Live(s, w) && PhaseOf(s, w).Enqueuing? && PhaseOf(s, w).todo != []
    case Push(w) => Live(s, w) && PhaseOf(s, w).Pushing?
    case Pop(w) => Live(s, w) && PhaseOf(s, w).Idle? && s.redis.list != []
    case Unmark(w) => Live(s, w) && PhaseOf(s, w).Popped?
    case TryLock(w) => Live(s, w) && PhaseOf(s, w).Dequeued?
    case Fetch(w) => Live(s, w) && PhaseOf(s, w).Acquired?
    case Mark(w) => Live(s, w) && PhaseOf(s, w).Fetched? && PhaseOf(s, w).id in s.rows
    case Check(w) =>
      && Live(s, w) && PhaseOf(s, w).Checking? && PhaseOf(s, w).id in s.rows
      && PhaseOf(s, w).stage != Boot(BOOT_ENTRIES)
    case Write(w, _, _, _) => Live(s, w) && PhaseOf(s, w).Writing? && PhaseOf(s, w).id in s.rows
    case Refresh(w) => Live(s, w) && PhaseOf(s, w).Refreshing?
    case Dispatch(w) => Live(s, w) && PhaseOf(s, w).Checking? && PhaseOf(s, w).stage == Boot(BOOT_ENTRIES)
    case Return(w) => Live(s, w) && PhaseOf(s, w).Checking? && PhaseOf(s, w).stage.Handler?
    case FoundDuplicate(w) => Live(s, w) && PhaseOf(s, w).Checking? && PhaseOf(s, w).stage.Handler?
    case Fault(w) => Live(s, w) && Trying(PhaseOf(s, w)) && !PhaseOf(s, w).Auditing?
    case Interrupt(w) => Live(s, w) && Trying(PhaseOf(s, w))
    case Report(w, _) => Live(s, w) && PhaseOf(s, w).Failing?
    case Escape(w) => Live(s, w) && HoldingAny(PhaseOf(s, w)) && !PhaseOf(s, w).Releasing? && !PhaseOf(s, w).Deleting?
    case Commit(w, _) =>
      && Live(s, w) && PhaseOf(s, w).Settling? && PhaseOf(s, w).id in s.rows && Terminal(PhaseOf(s, w).outcome)
    case Close(w, _) => Live(s, w) && PhaseOf(s, w).Closing? && PhaseOf(s, w).id in s.rows
    case Warn(w, _) => Live(s, w) && PhaseOf(s, w).Auditing? && PhaseOf(s, w).id in s.rows
    case Audited(w) => Live(s, w) && PhaseOf(s, w).Auditing?
    case ReadLock(w) => Live(s, w) && PhaseOf(s, w).Releasing?
    case Release(w) => Live(s, w) && PhaseOf(s, w).Deleting?
  }

  /** What the step commits to the operation table. */
  function RowsAfter(s: State, e: Step, ttl: nat): Table
    requires Enabled(s, e)
  {
    match e
    case Create(_, id) => s.rows[id := NewRow()]
    case RequestCancel(id) => s.rows[id := CancelAsked(s.rows[id])]
    case Recover(_, _) => RecoveredAll(s.rows, ttl, s.now)
    case Mark(w) =>
      var id := PhaseOf(s, w).id;
      s.rows[id := Started(s.rows[id], s.now)]
    case Write(w, progress, level, message) =>
      var p := PhaseOf(s, w);
      s.rows[p.id := Logged(s.rows[p.id], StageLevel(p.stage, level), message, Some(StageProgress(p.stage, progress)))]
    case Report(w, message) =>
      var id := PhaseOf(s, w).id;
      if id in s.rows then s.rows[id := Logged(s.rows[id], "error", message, None)] else s.rows
    case Commit(w, error) =>
      var p := PhaseOf(s, w);
      s.rows[p.id := Settled(s.rows[p.id], p.outcome, error, s.now)]
    case Close(w, message) =>
      var p := PhaseOf(s, w);
      s.rows[p.id := Logged(s.rows[p.id], ClosingLevel(p.outcome), message, ClosingProgress(p.outcome))]
    case Warn(w, message) =>
      var id := PhaseOf(s, w).id;
      s.rows[id := Logged(s.rows[id], "warning", message, None)]
    case _ => s.rows
  }

  /** What the step writes to Redis. A refresh is a GET and an EXPIRE; between them nobody can
      take a lock that is still live, and a death between them is one before both. */
  function RedisAfter(s: State, e: Step, ttl: nat): Redis
    requires Enabled(s, e)
  {
    match e
    case SetMarker(w) =>
      var id := PhaseOf(s, w).todo[0];
      if MarkerLive(s.redis, id, s.now) then s.redis else MarkerSet(s.redis, id, s.now)
    case Push(w) => Pushed(s.redis, PhaseOf(s, w).id)
    case Pop(w) => PopShrunk(s.redis)
    case Unmark(w) => Unmarked(s.redis, PhaseOf(s, w).id)
    case TryLock(w) =>
      var id := PhaseOf(s, w).id;
      if LockLive(s.redis, id, s.now) then s.redis else LockSet(s.redis, id, w, s.now + ttl)
    case Refresh(w) => Refreshed(s.redis, PhaseOf(s, w).id, w, s.now, ttl)
    case Release(w) => Deleted(s.redis, PhaseOf(s, w).id, PhaseOf(s, w).owned)
    case _ => s.redis
  }

  /** Where the process that takes the step goes next. */
  function PhaseAfter(s: State, e: Step): Phase
    requires Enabled(s, e) && !e.Tick? && !e.RequestCancel?
  {
    match e
    case Start(_) => Idle
    case Crash(w) => PhaseOf(s, w)
    case Create(_, id) => Enqueuing([id])
    case Recover(_, queued) => NextEnqueue(queued)
    case SetMarker(w) =>
      var todo := PhaseOf(s, w).todo;
      if MarkerLive(s.redis, todo[0], s.now) then NextEnqueue(todo[1..]) else Pushing(todo[0], todo[1..])
    case Push(w) => NextEnqueue(PhaseOf(s, w).rest)
    case Pop(_) => Popped(s.redis.list[|s.redis.list| - 1])
    case Unmark(w) => Dequeued(PhaseOf(s, w).id)
    case TryLock(w) =>
      var id := PhaseOf(s, w).id;
      if LockLive(s.redis, id, s.now) then Enqueuing([id]) else Acquired(id)
    case Fetch(w) =>
      var id := PhaseOf(s, w).id;
      if id !in s.rows || Terminal(s.rows[id].status) then Releasing(id, false) else Fetched(id)
    case Mark(w) => Checking(PhaseOf(s, w).id, Boot(0))
    case Check(w) =>
      var p := PhaseOf(s, w);
      if !s.rows[p.id].cancelRequested then Writing(p.id, p.stage)
      else if p.stage.Duplicate? then Releasing(p.id, true) // raised inside an exception handler
      else Settling(p.id, Cancelled, AfterDispatch(p.stage))
    case Write(w, _, _, _) => Refreshing(PhaseOf(s, w).id, PhaseOf(s, w).stage)
    case Refresh(w) => AfterEntry(PhaseOf(s, w).id, PhaseOf(s, w).stage)
    case Dispatch(w) => Checking(PhaseOf(s, w).id, Handler)
    case Return(w) => Checking(PhaseOf(s, w).id, Final)
    case FoundDuplicate(w) => Checking(PhaseOf(s, w).id, Duplicate)
    case Fault(w) => Failing(PhaseOf(s, w).id, PendingAny(PhaseOf(s, w)))
    case Interrupt(w) =>
      var p := PhaseOf(s, w);
      if p.id in s.rows then Settling(p.id, Cancelled, PendingAny(p)) else Releasing(p.id, false)
    case Report(w, _) =>
      var p := PhaseOf(s, w);
      if p.id in s.rows then Settling(p.id, Failed, p.pending) else Releasing(p.id, false)
    case Escape(w) => Releasing(PhaseOf(s, w).id, true)
    case Commit(w, _) => Closing(PhaseOf(s, w).id, PhaseOf(s, w).outcome)
    case Close(w, _) => Auditing(PhaseOf(s, w).id, PhaseOf(s, w).outcome)
    case Warn(w, _) => PhaseOf(s, w)
    case Audited(w) => Releasing(PhaseOf(s, w).id, false)
    case ReadLock(w) =>
      var p := PhaseOf(s, w);
      Deleting(p.id, HoldsLock(s.redis, p.id, w, s.now), p.dies)
    case Release(_) => Idle
  }

  function ProcAfter(s: State, e: Step): Proc
    requires Enabled(s, e) && !e.Tick? && !e.RequestCancel?
  {
    Proc(
      PhaseAfter(s, e),
      !e.Crash? && !(e.Release? && PhaseOf(s, e.w).dies),
      if e.Start? || e.TryLock? || e.SetMarker? || e.Pop? then s.now else s.procs[e.w].since)
  }

  /** Steps that end a dispatch without a terminal commit: a death, an exception that is not
      caught (a checkpoint of the duplicate handler that finds the cancel flag set raises
      one), and settling a row that does not exist. */
  predicate DropsDispatch(s: State, e: Step)
    requires Enabled(s, e)
  {
    || (e.Crash? && PendingAny(PhaseOf(s, e.w)))
    || (e.Escape? && PendingAny(PhaseOf(s, e.w)))
    || ((e.Report? || e.Interrupt?) && PendingAny(PhaseOf(s, e.w)) && PhaseOf(s, e.w).id !in s.rows)
    || (e.Check? && PhaseOf(s, e.w).stage.Duplicate? && s.rows[PhaseOf(s, e.w).id].cancelRequested)
  }

  function HistoryAfter(s: State, e: Step): History
    requires Enabled(s, e)
  {
    var h := s.history;
    if DropsDispatch(s, e) then h.(abandoned := h.abandoned + multiset{PhaseOf(s, e.w).id})
    else match e
      case Unmark(w) => h.(delivered := h.delivered + multiset{PhaseOf(s, w).id})
      case Dispatch(w) => h.(dispatched := h.dispatched + multiset{PhaseOf(s, w).id})
      case Commit(w, _) =>
        if PhaseOf(s, w).pending then h.(settled := h.settled + multiset{PhaseOf(s, w).id}) else h
      case _ => h
  }

  function Apply(s: State, e: Step, ttl: nat): State
    requires Enabled(s, e)
  {
    State(
      if e.Tick? then s.now + e.d else s.now,
      RowsAfter(s, e, ttl),
      RedisAfter(s, e, ttl),
      if e.Tick? || e.RequestCancel? then s.procs else s.procs[e.w := ProcAfter(s, e)],
      HistoryAfter(s, e))
  }

  /** The process that takes the step, if it is a process's own step. */
  predicate By(e: Step, w: WorkerId) {
    match e
    case Tick(_) => false
    case RequestCancel(_) => false
    case _ => e.w == w
  }

  function Initial(now: int): State {
    State(now, map[], Redis([], map[], map[]), map[],
          History(multiset{}, multiset{}, multiset{}, multiset{}))
  }

  // ----- runs -----

  /** `steps` can be taken one after the other from `s`, each within `assumed`. */
  ghost predicate Run(s: State, steps: seq<Step>, ttl: nat, assumed: (State, Step) -> bool)
    decreases |steps|
  {
    steps != [] ==>
      Enabled(s, steps[0]) && assumed(s, steps[0]) && Run(Apply(s, steps[0], ttl), steps[1..], ttl, assumed)
  }

  ghost function After(s: State, steps: seq<Step>, ttl: nat, assumed: (State, Step) -> bool): State
    requires Run(s, steps, ttl, assumed)
    decreases |steps|
  {
    if steps == [] then s else After(Apply(s, steps[0], ttl), steps[1..], ttl, assumed)
  }

  /** The empty assumption. */
  ghost predicate Unconditional(s: State, e: Step) { true }

  lemma OneStepOn(s: State, e: Step, ttl: nat, assumed: (State, Step) -> bool, rest: seq<Step>)
    returns (more: seq<Step>)
    requires Enabled(s, e) && assumed(s, e) && Run(Apply(s, e, ttl), rest, ttl, assumed)
    ensures Run(s, more, ttl, assumed) && After(s, more, ttl, assumed) == After(Apply(s, e, ttl), rest, ttl, assumed)
  {
    more := [e] + rest;
    assert more[1..] == rest;
  }

  /** What every enabled step within `assumed` keeps, every run keeps. */
  lemma {:induction false} RunKeeps(s: State, steps: seq<Step>, ttl: nat, assumed: (State, Step) -> bool,
                                    inv: State -> bool)
    requires inv(s) && Run(s, steps, ttl, assumed)
    requires forall t, e :: inv(t) && Enabled(t, e) && assumed(t, e) ==> inv(Apply(t, e, ttl))
    ensures inv(After(s, steps, ttl, assumed))
    decreases |steps|
  {
    if steps != [] {
      RunKeeps(Apply(s, steps[0], ttl), steps[1..], ttl, assumed, inv);
    }
  }
}
