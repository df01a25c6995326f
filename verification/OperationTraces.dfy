/**
 Concrete runs from the empty system, each disciplined up to its last state. They reach a
 stranded operation, and for every way in which a step can be disorderly a state in which
 that one step rewrites a terminal status.
 */
module OperationTraces {
  import opened Basics
  import opened OperationStore
  import opened OperationQueue
  import opened OperationProtocol
  import opened OperationSafety
  import opened OperationOutcome
  import opened OperationStream

  const OP: OpId := 7

  ghost predicate Reachable(s: State, ttl: nat) {
    exists steps :: Run(Initial(0), steps, ttl, Disciplined(ttl)) &&
      After(Initial(0), steps, ttl, Disciplined(ttl)) == s
  }

  lemma {:induction false} RunExtends(s: State, steps: seq<Step>, e: Step, ttl: nat)
    requires Run(s, steps, ttl, Disciplined(ttl))
    requires var t := After(s, steps, ttl, Disciplined(ttl)); Enabled(t, e) && Disciplined(ttl)(t, e)
    ensures Run(s, steps + [e], ttl, Disciplined(ttl))
    ensures After(s, steps + [e], ttl, Disciplined(ttl)) == Apply(After(s, steps, ttl, Disciplined(ttl)), e, ttl)
    decreases |steps|
  {
    if steps == [] {
      assert [e][1..] == [];
    } else {
      RunExtends(Apply(s, steps[0], ttl), steps[1..], e, ttl);
      assert (steps + [e])[1..] == steps[1..] + [e];
    }
  }

  lemma Next(s: State, e: Step, ttl: nat) returns (t: State)
    requires Reachable(s, ttl) && Enabled(s, e) && Disciplined(ttl)(s, e)
    ensures t == Apply(s, e, ttl) && Reachable(t, ttl)
  {
    t := Apply(s, e, ttl);
    var steps :| Run(Initial(0), steps, ttl, Disciplined(ttl)) && After(Initial(0), steps, ttl, Disciplined(ttl)) == s;
    RunExtends(Initial(0), steps, e, ttl);
  }

  lemma ReachableSound(s: State, ttl: nat)
    requires ttl > 0 && Reachable(s, ttl)
    ensures Sound(s) && TableValid(s.rows)
  {
    var steps :| Run(Initial(0), steps, ttl, Disciplined(ttl)) && After(Initial(0), steps, ttl, Disciplined(ttl)) == s;
    RunStaysInStep(0, steps, ttl);
    RunValid(0, steps, ttl, Disciplined(ttl));
  }

  lemma Begun(ttl: nat) returns (s: State)
    ensures Reachable(s, ttl) && s == Initial(0).(procs := map[0 := Proc(Idle, true, 0)])
  {
    s := Initial(0);
    assert Run(s, [], ttl, Disciplined(ttl)) && After(s, [], ttl, Disciplined(ttl)) == s;
    s := Next(s, Start(0), ttl);
    assert s.procs == map[0 := Proc(Idle, true, 0)];
  }

  /** Process 0 has created the operation and is about to enqueue it. */
  lemma Created(ttl: nat) returns (s: State)
    ensures Reachable(s, ttl) && s.now == 0 && s.history.delivered == multiset{}
    ensures s.procs == map[0 := Proc(Enqueuing([OP]), true, 0)]
    ensures s.rows == map[OP := NewRow()] && s.redis == Redis([], map[], map[])
  {
    s := Begun(ttl);
    s := Next(s, Create(0, OP), ttl);
  }

  /** It has set the marker. */
  lemma Marked(ttl: nat) returns (s: State)
    ensures Reachable(s, ttl) && s.now == 0 && s.history.delivered == multiset{}
    ensures s.procs == map[0 := Proc(Pushing(OP, []), true, 0)]
    ensures s.rows == map[OP := NewRow()] && s.redis == Redis([], map[OP := MARKER_TTL], map[])
  {
    s := Created(ttl);
    assert [OP][1..] == [];
    s := Next(s, SetMarker(0), ttl);
  }

  // ----- a stranded operation -----

  /** Process 0 died after setting the marker, before LPUSH. */
  lemma Orphaned(ttl: nat) returns (s: State)
    ensures Reachable(s, ttl) && s.now == 0 && s.history.delivered == multiset{}
    ensures s.procs == map[0 := Proc(Pushing(OP, []), false, 0)]
    ensures s.rows == map[OP := NewRow()] && s.redis == Redis([], map[OP := MARKER_TTL], map[])
  {
    s := Marked(ttl);
    s := Next(s, Crash(0), ttl);
  }

  lemma Restarted(ttl: nat) returns (s: State)
    ensures Reachable(s, ttl) && s.now == 0 && s.history.delivered == multiset{}
    ensures s.procs == map[0 := Proc(Pushing(OP, []), false, 0), 1 := Proc(Idle, true, 0)]
    ensures s.rows == map[OP := NewRow()] && s.redis == Redis([], map[OP := MARKER_TTL], map[])
  {
    s := Orphaned(ttl);
    s := Next(s, Start(1), ttl);
  }

  /** Process 1 scans the table. */
  lemma Scanned(ttl: nat) returns (s: State)
    ensures Reachable(s, ttl) && s.now == 0 && s.history.delivered == multiset{}
    ensures s.procs == map[0 := Proc(Pushing(OP, []), false, 0), 1 := Proc(Enqueuing([OP]), true, 0)]
    ensures s.rows == map[OP := NewRow()] && s.redis == Redis([], map[OP := MARKER_TTL], map[])
  {
    s := Restarted(ttl);
    s := Next(s, Recover(1, [OP]), ttl);
    assert s.rows == map[OP := NewRow()];
  }

  /** A whole reconcile pass over the stranded operation changes nothing: it is still
      QUEUED, not in the list and not delivered. The marker has to expire first. */
  lemma ReconcileStrands(ttl: nat) returns (s: State)
    ensures Reachable(s, ttl)
    ensures s.procs.Keys == {0, 1} && s.procs[1] == Proc(Idle, true, 0)
    ensures OP in s.rows && s.rows[OP].status.Queued?
    ensures OP !in s.redis.list && s.history.delivered[OP] == 0 && MarkerLive(s.redis, OP, s.now)
  {
    s := Scanned(ttl);
    assert [OP][1..] == [];
    s := Next(s, SetMarker(1), ttl);
  }

  // ----- a success, with a second copy in the list -----

  /** Processes 0 and 1 are alive, at time 0. */
  ghost predicate Scene(s: State, ttl: nat, zero: Phase, one: Phase) {
    Reachable(s, ttl) && s.now == 0 && s.procs == map[0 := Proc(zero, true, 0), 1 := Proc(one, true, 0)]
  }

  predicate Plain(e: Step) {
    !e.Tick? && !e.Create? && !e.RequestCancel? && !e.Recover? && !e.Fault? && !e.Interrupt? && !e.Start? && !e.Crash?
  }

  /** A plain step of process 1, or of process 0, in a scene. */
  lemma One(s: State, e: Step, zero: Phase, one: Phase, ttl: nat) returns (t: State)
    requires Scene(s, ttl, zero, one) && Enabled(s, e) && Plain(e) && e.w == 1 && !(e.Release? && one.dies)
    ensures t == Apply(s, e, ttl) && Scene(t, ttl, zero, PhaseAfter(s, e))
  {
    t := Next(s, e, ttl);
    assert t.procs == map[0 := Proc(zero, true, 0), 1 := Proc(PhaseAfter(s, e), true, 0)];
  }

  lemma Zero(s: State, e: Step, zero: Phase, one: Phase, ttl: nat) returns (t: State)
    requires Scene(s, ttl, zero, one) && Enabled(s, e) && Plain(e) && e.w == 0 && !(e.Release? && zero.dies)
    ensures t == Apply(s, e, ttl) && Scene(t, ttl, PhaseAfter(s, e), one)
  {
    t := Next(s, e, ttl);
    assert t.procs == map[0 := Proc(PhaseAfter(s, e), true, 0), 1 := Proc(one, true, 0)];
  }

  lemma Queue(ttl: nat) returns (s: State)
    ensures Reachable(s, ttl) && s.now == 0
    ensures s.procs == map[0 := Proc(Idle, true, 0)]
    ensures s.rows == map[OP := NewRow()] && s.redis == Redis([OP], map[OP := MARKER_TTL], map[])
  {
    s := Marked(ttl);
    s := Next(s, Push(0), ttl);
  }

  /** Worker 1 takes the operation from the list. */
  lemma Take(ttl: nat) returns (s: State)
    ensures Scene(s, ttl, Idle, Popped(OP))
    ensures s.rows == map[OP := NewRow()] && s.redis == Redis([], map[OP := MARKER_TTL], map[])
  {
    s := Queue(ttl);
    s := Next(s, Start(1), ttl);
    assert s.procs == map[0 := Proc(Idle, true, 0), 1 := Proc(Idle, true, 0)];
    s := Next(s, Pop(1), ttl);
  }

  lemma Locked(ttl: nat) returns (s: State)
    ensures Scene(s, ttl, Idle, Acquired(OP))
    ensures s.rows == map[OP := NewRow()] && s.redis == Redis([], map[], map[OP := Lock(1, ttl)])
  {
    s := Take(ttl);
    s := Next(s, Unmark(1), ttl);
    assert s.procs == map[0 := Proc(Idle, true, 0), 1 := Proc(Dequeued(OP), true, 0)];
    assert s.redis == Redis([], map[], map[]);
    s := Next(s, TryLock(1), ttl);
  }

  /** It has locked the operation, and reads the row. */
  lemma Read(ttl: nat) returns (s: State)
    ensures Scene(s, ttl, Idle, Fetched(OP))
    ensures s.rows == map[OP := NewRow()] && s.redis == Redis([], map[], map[OP := Lock(1, ttl)])
  {
    s := Locked(ttl);
    s := Next(s, Fetch(1), ttl);
  }

  /** The row still says QUEUED, so process 0's reconcile pass finds it. */
  lemma Rescanned(ttl: nat) returns (s: State)
    ensures Scene(s, ttl, Enqueuing([OP]), Fetched(OP))
    ensures s.rows == map[OP := NewRow()] && s.redis == Redis([], map[], map[OP := Lock(1, ttl)])
  {
    s := Read(ttl);
    s := Next(s, Recover(0, [OP]), ttl);
    assert s.rows == map[OP := NewRow()];
  }

  /** It queues a second copy. */
  lemma Requeue(ttl: nat) returns (s: State)
    ensures Scene(s, ttl, Idle, Fetched(OP))
    ensures s.rows == map[OP := NewRow()]
    ensures s.redis == Redis([OP], map[OP := MARKER_TTL], map[OP := Lock(1, ttl)])
  {
    s := Rescanned(ttl);
    assert [OP][1..] == [];
    s := Next(s, SetMarker(0), ttl);
    assert s.procs == map[0 := Proc(Pushing(OP, []), true, 0), 1 := Proc(Fetched(OP), true, 0)];
    s := Next(s, Push(0), ttl);
  }

  /** The row is in the given status, started at time 0, with no cancellation asked. */
  ghost predicate RowIs(s: State, status: Status) {
    OP in s.rows && s.rows.Keys == {OP} && s.rows[OP].status == status && !s.rows[OP].cancelRequested &&
      s.rows[OP].startedAt == Some(0)
  }

  /** The second copy waits, and worker 1 owns the lock. */
  ghost predicate QueueIs(s: State, ttl: nat) {
    s.redis.list == [OP] && s.redis.locks == map[OP := Lock(1, ttl)]
  }

  /** Worker 1 marks the row running. */
  lemma Launch(ttl: nat) returns (s: State)
    ensures Scene(s, ttl, Idle, Checking(OP, Boot(0))) && RowIs(s, Running) && QueueIs(s, ttl)
  {
    s := Requeue(ttl);
    s := Next(s, Mark(1), ttl);
  }

  /** One checkpoint of worker 1. */
  lemma Checkpoint(s: State, st: Stage, ttl: nat) returns (t: State)
    requires ttl > 0 && Scene(s, ttl, Idle, Checking(OP, st)) && RowIs(s, Running) && QueueIs(s, ttl)
    requires st != Boot(BOOT_ENTRIES)
    ensures Scene(t, ttl, Idle, AfterEntry(OP, st)) && RowIs(t, Running) && QueueIs(t, ttl)
  {
    t := One(s, Check(1), Idle, Checking(OP, st), ttl);
    assert t.rows == s.rows && t.redis == s.redis;
    t := Entry(t, st, ttl);
  }

  lemma Entry(s: State, st: Stage, ttl: nat) returns (t: State)
    requires ttl > 0 && Scene(s, ttl, Idle, Writing(OP, st)) && RowIs(s, Running) && QueueIs(s, ttl)
    ensures Scene(t, ttl, Idle, AfterEntry(OP, st)) && RowIs(t, Running) && QueueIs(t, ttl)
  {
    t := One(s, Write(1, 0, "", ""), Idle, Writing(OP, st), ttl);
    assert RowIs(t, Running) && QueueIs(t, ttl);
    t := One(t, Refresh(1), Idle, Refreshing(OP, st), ttl);
  }

  /** The bootstrap, the handler and the final checkpoint. */
  lemma Handled(ttl: nat) returns (s: State)
    requires ttl > 0
    ensures Scene(s, ttl, Idle, Settling(OP, Succeeded, true)) && RowIs(s, Running) && QueueIs(s, ttl)
  {
    s := Launch(ttl);
    s := Checkpoint(s, Boot(0), ttl);
    s := Checkpoint(s, Boot(1), ttl);
    s := Checkpoint(s, Boot(2), ttl);
    s := Checkpoint(s, Boot(3), ttl);
    s := Returned(s, ttl);
    s := Checkpoint(s, Final, ttl);
  }

  lemma Returned(s: State, ttl: nat) returns (t: State)
    requires Scene(s, ttl, Idle, Checking(OP, Boot(BOOT_ENTRIES))) && RowIs(s, Running) && QueueIs(s, ttl)
    ensures Scene(t, ttl, Idle, Checking(OP, Final)) && RowIs(t, Running) && QueueIs(t, ttl)
  {
    t := One(s, Dispatch(1), Idle, Checking(OP, Boot(BOOT_ENTRIES)), ttl);
    assert t.rows == s.rows && t.redis == s.redis;
    t := One(t, Return(1), Idle, Checking(OP, Handler), ttl);
  }

  /** SUCCEEDED is committed, the closing entry is not yet written. */
  lemma Committed(ttl: nat) returns (s: State)
    requires ttl > 0
    ensures Scene(s, ttl, Idle, Closing(OP, Succeeded)) && RowIs(s, Succeeded) && QueueIs(s, ttl)
  {
    s := Handled(ttl);
    s := Next(s, Commit(1, ""), ttl);
  }

  /** The closing entry is written, the audit is under way. */
  lemma Audit(ttl: nat) returns (s: State)
    requires ttl > 0
    ensures Scene(s, ttl, Idle, Auditing(OP, Succeeded)) && RowIs(s, Succeeded) && QueueIs(s, ttl)
  {
    s := Committed(ttl);
    s := Next(s, Close(1, ""), ttl);
  }

  lemma LeavingLock(ttl: nat) returns (s: State)
    requires ttl > 0
    ensures Scene(s, ttl, Idle, Deleting(OP, true, false)) && RowIs(s, Succeeded) && QueueIs(s, ttl)
  {
    s := Audit(ttl);
    s := One(s, Audited(1), Idle, Auditing(OP, Succeeded), ttl);
    assert RowIs(s, Succeeded) && QueueIs(s, ttl);
    s := One(s, ReadLock(1), Idle, Releasing(OP, false), ttl);
  }

  /** Worker 1 is done and has given up the lock. */
  lemma Freed(ttl: nat) returns (s: State)
    requires ttl > 0
    ensures Scene(s, ttl, Idle, Idle) && RowIs(s, Succeeded) && s.redis.list == [OP] && s.redis.locks == map[]
  {
    s := LeavingLock(ttl);
    s := One(s, Release(1), Idle, Deleting(OP, true, false), ttl);
  }

  lemma StaleTaken(ttl: nat) returns (s: State)
    requires ttl > 0
    ensures Scene(s, ttl, Popped(OP), Idle) && RowIs(s, Succeeded) && s.redis.locks == map[]
  {
    s := Freed(ttl);
    s := Zero(s, Pop(0), Idle, Idle, ttl);
  }

  /** Process 0 has taken and locked the second copy of the finished operation. */
  lemma StaleCopy(ttl: nat) returns (s: State)
    requires ttl > 0
    ensures Scene(s, ttl, Acquired(OP), Idle) && RowIs(s, Succeeded)
  {
    s := StaleTaken(ttl);
    s := Zero(s, Unmark(0), Popped(OP), Idle, ttl);
    assert RowIs(s, Succeeded) && s.redis.locks == map[];
    s := Zero(s, TryLock(0), Dequeued(OP), Idle, ttl);
  }

  // ----- rewritten terminal statuses -----

  /** The stop signal while a success is being audited. */
  lemma StopInAudit(ttl: nat) returns (s: State)
    requires ttl > 0
    ensures Reachable(s, ttl) && RowIs(s, Succeeded)
    ensures Enabled(s, Interrupt(1)) && Rewrites(s, Interrupt(1), ttl)
  {
    s := Audit(ttl);
    LateInterruptRewrites(s, 1, ttl);
  }

  /** The stop signal, or an exception, while a success is being closed. */
  lemma StopInClosing(ttl: nat) returns (s: State)
    requires ttl > 0
    ensures Reachable(s, ttl) && RowIs(s, Succeeded)
    ensures Enabled(s, Interrupt(1)) && Rewrites(s, Interrupt(1), ttl)
    ensures Enabled(s, Fault(1)) && Rewrites(s, Fault(1), ttl)
  {
    s := Committed(ttl);
    LateInterruptRewrites(s, 1, ttl);
    LateFaultRewrites(s, 1, ttl);
  }

  /** The stop signal, or an exception, on a stale copy of a finished operation. */
  lemma StopOnStaleCopy(ttl: nat) returns (s: State)
    requires ttl > 0
    ensures Reachable(s, ttl) && RowIs(s, Succeeded)
    ensures Enabled(s, Interrupt(0)) && Rewrites(s, Interrupt(0), ttl)
    ensures Enabled(s, Fault(0)) && Rewrites(s, Fault(0), ttl)
  {
    s := StaleCopy(ttl);
    LateInterruptRewrites(s, 0, ttl);
    LateFaultRewrites(s, 0, ttl);
  }

  lemma LongWriting(ttl: nat) returns (s: State)
    requires ttl >= 2
    ensures Scene(s, ttl, Idle, Refreshing(OP, Boot(0))) && RowIs(s, Running) && QueueIs(s, ttl)
  {
    s := Launch(ttl);
    s := One(s, Check(1), Idle, Checking(OP, Boot(0)), ttl);
    assert RowIs(s, Running) && QueueIs(s, ttl);
    s := One(s, Write(1, 0, "", ""), Idle, Writing(OP, Boot(0)), ttl);
  }

  lemma LongWaiting(ttl: nat) returns (s: State)
    requires ttl >= 2
    ensures Reachable(s, ttl) && s.now == ttl - 1 && RowIs(s, Running) && QueueIs(s, ttl)
    ensures s.procs == map[0 := Proc(Idle, true, 0), 1 := Proc(Refreshing(OP, Boot(0)), true, 0)]
  {
    s := LongWriting(ttl);
    s := Next(s, Tick(ttl - 1), ttl);
  }

  lemma LongRefreshed(ttl: nat) returns (s: State)
    requires ttl >= 2
    ensures Reachable(s, ttl) && s.now == ttl - 1 && RowIs(s, Running)
    ensures s.redis.locks == map[OP := Lock(1, 2 * ttl - 1)]
    ensures s.procs == map[0 := Proc(Idle, true, 0), 1 := Proc(Checking(OP, Boot(1)), true, 0)]
  {
    s := LongWaiting(ttl);
    s := Next(s, Refresh(1), ttl);
  }

  /** A long execution: it has refreshed its lock once, and its start is `ttl` ago. */
  lemma LongRunning(ttl: nat) returns (s: State)
    requires ttl >= 2
    ensures Reachable(s, ttl) && s.now == ttl && RowIs(s, Running)
    ensures s.procs == map[0 := Proc(Idle, true, 0), 1 := Proc(Checking(OP, Boot(1)), true, 0)]
  {
    s := LongRefreshed(ttl);
    s := Next(s, Tick(1), ttl);
  }

  /** A recovery by process 0 fails the row; the execution goes on and succeeds. */
  lemma RecoveryOfLongRunning(ttl: nat) returns (s: State)
    requires ttl >= 2
    ensures Reachable(s, ttl) && Enabled(s, Recover(0, [])) && Rewrites(s, Recover(0, []), ttl)
  {
    s := LongRunning(ttl);
    ReachableSound(s, ttl);
    assert At(s, 1, OP);
    RecoveryRewrites(s, 0, [], 1, OP, ttl);
  }

  /** Worker 1 dies; its lock runs out. */
  lemma Abandon(ttl: nat) returns (s: State)
    ensures Reachable(s, ttl) && s.now == ttl && RowIs(s, Running) && QueueIs(s, ttl)
    ensures s.procs == map[0 := Proc(Idle, true, 0), 1 := Proc(Checking(OP, Boot(0)), false, 0)]
  {
    s := Launch(ttl);
    s := Next(s, Crash(1), ttl);
    assert s.procs == map[0 := Proc(Idle, true, 0), 1 := Proc(Checking(OP, Boot(0)), false, 0)];
    s := Next(s, Tick(ttl), ttl);
  }

  lemma PopAgain(ttl: nat) returns (s: State)
    ensures Reachable(s, ttl) && s.now == ttl && RowIs(s, Running) && s.redis.locks == map[OP := Lock(1, ttl)]
    ensures s.procs == map[0 := Proc(Popped(OP), true, ttl), 1 := Proc(Checking(OP, Boot(0)), false, 0)]
  {
    s := Abandon(ttl);
    s := Next(s, Pop(0), ttl);
  }

  /** Process 0 takes the second copy. */
  lemma TakeAgain(ttl: nat) returns (s: State)
    ensures Reachable(s, ttl) && s.now == ttl && RowIs(s, Running) && s.redis.locks == map[OP := Lock(1, ttl)]
    ensures s.procs == map[0 := Proc(Dequeued(OP), true, ttl), 1 := Proc(Checking(OP, Boot(0)), false, 0)]
  {
    s := PopAgain(ttl);
    s := Next(s, Unmark(0), ttl);
  }

  lemma LockAgain(ttl: nat) returns (s: State)
    ensures Reachable(s, ttl) && s.now == ttl && RowIs(s, Running)
    ensures s.procs == map[0 := Proc(Acquired(OP), true, ttl), 1 := Proc(Checking(OP, Boot(0)), false, 0)]
  {
    s := TakeAgain(ttl);
    s := Next(s, TryLock(0), ttl);
  }

  /** It has locked it, reads the row as RUNNING, and a third process starts. */
  lemma ReadAgain(ttl: nat) returns (s: State)
    ensures Reachable(s, ttl) && s.now == ttl && RowIs(s, Running)
    ensures s.procs
      == map[0 := Proc(Fetched(OP), true, ttl), 1 := Proc(Checking(OP, Boot(0)), false, 0), 2 := Proc(Idle, true, ttl)]
  {
    s := LockAgain(ttl);
    s := Next(s, Fetch(0), ttl);
    assert s.procs == map[0 := Proc(Fetched(OP), true, ttl), 1 := Proc(Checking(OP, Boot(0)), false, 0)];
    s := Next(s, Start(2), ttl);
  }

  /** A third process recovers the stale row, which process 0 has already read and marks
      running: a FAILED operation runs again. */
  lemma RecoveryInWindow(ttl: nat) returns (s: State)
    requires ttl > 0
    ensures Reachable(s, ttl) && Enabled(s, Recover(2, [])) && Rewrites(s, Recover(2, []), ttl)
    ensures OP in s.rows && Apply(s, Recover(2, []), ttl).rows[OP].status.Failed?
    ensures Enabled(Apply(s, Recover(2, []), ttl), Mark(0))
  {
    s := ReadAgain(ttl);
    ReachableSound(s, ttl);
    assert At(s, 0, OP);
    RecoveryRewrites(s, 2, [], 0, OP, ttl);
  }

  // ----- a reader that misses the closing entry -----

  /** The reader opens the stream just after SUCCEEDED is committed: it gets the log as it
      is, sees a terminal status and ends, and the closing entry comes after that. */
  lemma ReaderMissesClosing(ttl: nat) returns (s: State, r: Reader, later: seq<Step>)
    requires ttl > 0
    ensures Reachable(s, ttl) && RowIs(s, Succeeded)
    ensures Visits(s, [Visit([], [])], ttl) && Watched(s, [Visit([], [])], ttl, OP, Reader([], 0, false)) == (s, r)
    ensures r.stopped && Run(s, later, ttl, Calm(ttl)) && !HasAll(After(s, later, ttl, Calm(ttl)), OP, 0, r)
  {
    s := Committed(ttl);
    ReachableSound(s, ttl);
    var logs := s.rows[OP].logs;
    r := Poll(Reader([], 0, false), Succeeded, logs);
    PollExtends(0, [], Succeeded, logs);
    assert [Visit([], [])][1..] == [];
    later := NextEntry(s, 1, OP, ttl);
  }
}
