/** The log of an operation, and the reader that streams it while processes write it. */
module OperationStream {
  import opened Basics
  import opened OperationStore
  import opened OperationQueue
  import opened OperationProtocol
  import opened OperationSafety
  import opened OperationOutcome

  // ----- logs only grow -----

  lemma EntryGrows(s: State, e: Step, ttl: nat, id: OpId)
    requires Enabled(s, e) && id in s.rows && RowValid(s.rows[id])
    requires e.Report? || e.Warn? || e.Close?
    ensures id in Apply(s, e, ttl).rows && RowValid(Apply(s, e, ttl).rows[id])
    ensures Grows(s.rows[id], Apply(s, e, ttl).rows[id])
  {
    var r, p := s.rows[id], PhaseOf(s, e.w);
    if e.Report? { LoggedKeeps(r, "error", e.message, None); }
    else if e.Warn? { LoggedKeeps(r, "warning", e.message, None); }
    else { LoggedKeeps(r, ClosingLevel(p.outcome), e.message, ClosingProgress(p.outcome)); }
  }

  /** A checkpoint writes its entry with its level and progress. */
  lemma CheckpointWritten(s: State, e: Step, ttl: nat)
    requires Enabled(s, e) && e.Write? && RowValid(s.rows[PhaseOf(s, e.w).id])
    ensures var p := PhaseOf(s, e.w);
      var before, after := s.rows[p.id], Apply(s, e, ttl).rows;
      && p.id in after && after == s.rows[p.id := after[p.id]]
      && match p.stage
         case Boot(k) => HasEntry(before, after[p.id], if k == 0 then "notice" else "debug", e.message, Some(k + 1))
         case Handler => HasEntry(before, after[p.id], e.level, e.message, Some(e.progress))
         case Final => HasEntry(before, after[p.id], "debug", e.message, Some(98))
         case Duplicate => HasEntry(before, after[p.id], "notice", e.message, Some(100))
  {
    var p := PhaseOf(s, e.w);
    LoggedKeeps(s.rows[p.id], StageLevel(p.stage, e.level), e.message, Some(StageProgress(p.stage, e.progress)));
  }

  /** The exception handler writes under "error", the end under the level of its outcome, and
      the audit, when it fails, under "warning". */
  lemma EntriesWritten(s: State, e: Step, ttl: nat)
    requires Enabled(s, e) && (e.Report? || e.Close? || e.Warn?)
    requires PhaseOf(s, e.w).id in s.rows && RowValid(s.rows[PhaseOf(s, e.w).id])
    ensures var p := PhaseOf(s, e.w);
      var before, after := s.rows[p.id], Apply(s, e, ttl).rows;
      && p.id in after && after == s.rows[p.id := after[p.id]]
      && (e.Report? ==> HasEntry(before, after[p.id], "error", e.message, None))
      && (e.Warn? ==> HasEntry(before, after[p.id], "warning", e.message, None))
      && (e.Close? && p.outcome.Succeeded? ==> HasEntry(before, after[p.id], "info", e.message, Some(100)))
      && (e.Close? && p.outcome.Skipped? ==> HasEntry(before, after[p.id], "notice", e.message, Some(100)))
      && (e.Close? && p.outcome.Failed? ==> HasEntry(before, after[p.id], "error", e.message, None))
      && (e.Close? && p.outcome.Cancelled? ==> HasEntry(before, after[p.id], "warning", e.message, None))
  {
    var p := PhaseOf(s, e.w);
    var r := s.rows[p.id];
    if e.Report? { LoggedKeeps(r, "error", e.message, None); }
    else if e.Warn? { LoggedKeeps(r, "warning", e.message, None); }
    else { LoggedKeeps(r, ClosingLevel(p.outcome), e.message, ClosingProgress(p.outcome)); }
  }

  lemma WriteGrows(s: State, e: Step, ttl: nat, id: OpId)
    requires Enabled(s, e) && id in s.rows && RowValid(s.rows[id]) && e.Write?
    ensures id in Apply(s, e, ttl).rows && RowValid(Apply(s, e, ttl).rows[id])
    ensures Grows(s.rows[id], Apply(s, e, ttl).rows[id])
  {
    var st := PhaseOf(s, e.w).stage;
    LoggedKeeps(s.rows[id], StageLevel(st, e.level), e.message, Some(StageProgress(st, e.progress)));
  }

  lemma RowGrows(s: State, e: Step, ttl: nat, id: OpId)
    requires Enabled(s, e) && id in s.rows && RowValid(s.rows[id])
    ensures id in Apply(s, e, ttl).rows && RowValid(Apply(s, e, ttl).rows[id])
    ensures Grows(s.rows[id], Apply(s, e, ttl).rows[id])
  {
    var r := s.rows[id];
    if e.Write? { WriteGrows(s, e, ttl, id); }
    else if e.Report? || e.Warn? || e.Close? { EntryGrows(s, e, ttl, id); }
    else if e.Commit? { OthersKeep(r, PhaseOf(s, e.w).outcome, e.error, ttl, s.now); }
    else if e.Mark? || e.Recover? { OthersKeep(r, Failed, "", ttl, s.now); }
  }

  lemma {:induction false} RunGrows(s: State, steps: seq<Step>, ttl: nat, id: OpId)
    requires Run(s, steps, ttl, Unconditional) && id in s.rows && RowValid(s.rows[id])
    ensures var t := After(s, steps, ttl, Unconditional);
      id in t.rows && RowValid(t.rows[id]) && Grows(s.rows[id], t.rows[id])
    decreases |steps|
  {
    if steps != [] {
      RowGrows(s, steps[0], ttl, id);
      RunGrows(Apply(s, steps[0], ttl), steps[1..], ttl, id);
    }
  }

  lemma TableStep(s: State, e: Step, ttl: nat)
    requires Enabled(s, e) && TableValid(s.rows)
    ensures TableValid(Apply(s, e, ttl).rows)
  {
    var t := Apply(s, e, ttl);
    forall id | id in t.rows ensures RowValid(t.rows[id]) {
      if id in s.rows { RowGrows(s, e, ttl, id); }
    }
  }

  /** Over every run from the empty system, within whatever assumption, every log is
      numbered 1..n, progress is a percentage, and success and a skip stand at 100. */
  lemma RunValid(now: int, steps: seq<Step>, ttl: nat, assumed: (State, Step) -> bool)
    requires Run(Initial(now), steps, ttl, assumed)
    ensures TableValid(After(Initial(now), steps, ttl, assumed).rows)
  {
    var inv := (t: State) => TableValid(t.rows);
    forall t, e | inv(t) && Enabled(t, e) && assumed(t, e)
      ensures inv(Apply(t, e, ttl))
    {
      TableStep(t, e, ttl);
    }
    RunKeeps(Initial(now), steps, ttl, assumed, inv);
  }

  // ----- the reader -----

  /** What happens before a visit reads the status, and between that and its reading the log. */
  datatype Visit = Visit(beforeStatus: seq<Step>, beforeLog: seq<Step>)

  ghost function StatusRead(s: State, v: Visit, ttl: nat): State
    requires Run(s, v.beforeStatus, ttl, Unconditional)
  {
    After(s, v.beforeStatus, ttl, Unconditional)
  }

  ghost predicate Visited(s: State, v: Visit, ttl: nat) {
    Run(s, v.beforeStatus, ttl, Unconditional) && Run(StatusRead(s, v, ttl), v.beforeLog, ttl, Unconditional)
  }

  ghost function LogRead(s: State, v: Visit, ttl: nat): State
    requires Visited(s, v, ttl)
  {
    After(StatusRead(s, v, ttl), v.beforeLog, ttl, Unconditional)
  }

  ghost predicate Visits(s: State, visits: seq<Visit>, ttl: nat)
    decreases |visits|
  {
    visits != [] ==> Visited(s, visits[0], ttl) && Visits(LogRead(s, visits[0], ttl), visits[1..], ttl)
  }

  ghost function Watched(s: State, visits: seq<Visit>, ttl: nat, id: OpId, r: Reader): (State, Reader)
    requires Visits(s, visits, ttl)
    decreases |visits|
  {
    if visits == [] then (s, r)
    else
      var u, t := StatusRead(s, visits[0], ttl), LogRead(s, visits[0], ttl);
      Watched(t, visits[1..], ttl, id,
              if id in u.rows && id in t.rows then Poll(r, u.rows[id].status, t.rows[id].logs) else r)
  }

  /** A reader that has received exactly the entries after `start` up to its cursor, and if
      it has not ended, all there are. */
  ghost predicate Exact(r: Reader, start: nat, logs: seq<LogEntry>) {
    && start <= r.cursor <= |logs|
    && r.received == logs[start..r.cursor]
    && (!r.stopped ==> r.cursor == |logs|)
    && forall i :: 0 <= i < |r.received| ==> r.received[i].sequence == start + i + 1
  }

  lemma VisitExact(s: State, v: Visit, ttl: nat, id: OpId, start: nat, r: Reader)
    requires Visited(s, v, ttl) && id in s.rows && RowValid(s.rows[id]) && Exact(r, start, s.rows[id].logs)
    ensures var u, t := StatusRead(s, v, ttl), LogRead(s, v, ttl);
      && id in u.rows && id in t.rows && RowValid(t.rows[id])
      && Exact(Poll(r, u.rows[id].status, t.rows[id].logs), start, t.rows[id].logs)
  {
    var u, t := StatusRead(s, v, ttl), LogRead(s, v, ttl);
    RunGrows(s, v.beforeStatus, ttl, id);
    RunGrows(u, v.beforeLog, ttl, id);
    var before, logs := s.rows[id].logs, t.rows[id].logs;
    assert before <= logs;
    if r.stopped {
      assert logs[start..r.cursor] == before[start..r.cursor];
    } else {
      assert before[start..r.cursor] == before[start..] && logs[start..|logs|] == logs[start..];
      PollExtends(start, before, u.rows[id].status, logs);
    }
  }

  /** Under any interleaving with the writers, a reader that starts after entry `start` has
      received exactly the entries from there to its last visit, each once and in order,
      numbered without a gap. */
  lemma {:induction false} StreamIsExact(s: State, visits: seq<Visit>, ttl: nat, id: OpId, start: nat, r: Reader)
    requires Visits(s, visits, ttl) && id in s.rows && RowValid(s.rows[id]) && Exact(r, start, s.rows[id].logs)
    ensures var (t, end) := Watched(s, visits, ttl, id, r); id in t.rows && Exact(end, start, t.rows[id].logs)
    decreases |visits|
  {
    if visits != [] {
      var u, t := StatusRead(s, visits[0], ttl), LogRead(s, visits[0], ttl);
      VisitExact(s, visits[0], ttl, id, start, r);
      StreamIsExact(t, visits[1..], ttl, id, start, Poll(r, u.rows[id].status, t.rows[id].logs));
    }
  }

  // ----- what a reader that has ended can miss -----

  /** Disciplined, and no exception or stop signal on a stale copy of an ended operation. */
  ghost function Calm(ttl: nat): (State, Step) -> bool {
    (s, e) =>
      && Disciplined(ttl)(s, e)
      && (Enabled(s, e) && (e.Fault? || e.Interrupt?) ==>
            PhaseOf(s, e.w).id in s.rows ==> !Terminal(s.rows[PhaseOf(s, e.w).id].status))
  }

  /** Some live process is between committing the end of `id` and the end of its audit, or
      about to commit that end once more. */
  ghost predicate BeingClosed(s: State, id: OpId) {
    exists w :: Live(s, w) && StillWrites(s.procs[w].phase, id)
  }

  predicate StillWrites(p: Phase, id: OpId) {
    (p.Failing? || p.Settling? || p.Closing? || p.Auditing?) && p.id == id
  }

  ghost predicate Over(s: State, id: OpId) { id in s.rows && Terminal(s.rows[id].status) && !BeingClosed(s, id) }

  lemma OverStep(s: State, e: Step, ttl: nat, id: OpId)
    requires Enabled(s, e) && Calm(ttl)(s, e) && RowsInStep(s) && Over(s, id)
    ensures var t := Apply(s, e, ttl); Over(t, id) && t.rows[id].logs == s.rows[id].logs
  {
    var t := Apply(s, e, ttl);
    if !e.Tick? && !e.RequestCancel? && Live(s, e.w) { assert InStep(s, s.procs[e.w]); }
    forall w | Live(t, w) ensures !StillWrites(t.procs[w].phase, id) {
      if !By(e, w) { StepFrame(s, e, ttl, w); }
    }
  }

  lemma OverForGood(s: State, later: seq<Step>, ttl: nat, id: OpId)
    requires ttl > 0 && Sound(s) && Over(s, id) && Run(s, later, ttl, Calm(ttl))
    ensures var t := After(s, later, ttl, Calm(ttl)); id in t.rows && t.rows[id].logs == s.rows[id].logs
  {
    var inv := (t: State) => Sound(t) && Over(t, id) && t.rows[id].logs == s.rows[id].logs;
    forall t, e | inv(t) && Enabled(t, e) && Calm(ttl)(t, e)
      ensures inv(Apply(t, e, ttl))
    {
      SoundStep(t, e, ttl);
      OverStep(t, e, ttl, id);
    }
    RunKeeps(s, later, ttl, Calm(ttl), inv);
  }

  /** The next entry of a process that still writes. */
  lemma NextEntry(s: State, w: WorkerId, id: OpId, ttl: nat) returns (later: seq<Step>)
    requires Live(s, w) && StillWrites(s.procs[w].phase, id) && id in s.rows && RowValid(s.rows[id])
    requires s.procs[w].phase.Settling? ==> Terminal(s.procs[w].phase.outcome)
    ensures Run(s, later, ttl, Calm(ttl))
    ensures var t := After(s, later, ttl, Calm(ttl)); id in t.rows && |t.rows[id].logs| > |s.rows[id].logs|
  {
    var p := s.procs[w].phase;
    if p.Settling? {
      var t := Apply(s, Commit(w, ""), ttl);
      RowGrows(s, Commit(w, ""), ttl, id);
      assert t.procs[w].alive && t.procs[w].phase == Closing(id, p.outcome);
      var rest := OneEntry(t, w, id, ttl);
      later := [Commit(w, "")] + rest;
      assert Disciplined(ttl)(s, Commit(w, "")) && Calm(ttl)(s, Commit(w, "")) && later[1..] == rest;
    } else {
      later := OneEntry(s, w, id, ttl);
    }
  }

  lemma OneEntry(s: State, w: WorkerId, id: OpId, ttl: nat) returns (later: seq<Step>)
    requires Live(s, w) && StillWrites(s.procs[w].phase, id) && !s.procs[w].phase.Settling?
    requires id in s.rows && RowValid(s.rows[id])
    ensures Run(s, later, ttl, Calm(ttl))
    ensures var t := After(s, later, ttl, Calm(ttl)); id in t.rows && |t.rows[id].logs| > |s.rows[id].logs|
  {
    var p := s.procs[w].phase;
    var e := if p.Failing? then Report(w, "") else if p.Closing? then Close(w, "") else Warn(w, "");
    EntryWritten(s, e, ttl, id);
    later := [e];
    assert Disciplined(ttl)(s, e) && Calm(ttl)(s, e) && later[1..] == [];
    assert After(s, later, ttl, Calm(ttl)) == Apply(s, e, ttl);
  }

  lemma EntryWritten(s: State, e: Step, ttl: nat, id: OpId)
    requires Enabled(s, e) && (e.Report? || e.Close? || e.Warn?) && PhaseOf(s, e.w).id == id
    requires id in s.rows && RowValid(s.rows[id])
    ensures |Apply(s, e, ttl).rows[id].logs| == |s.rows[id].logs| + 1
  {
  }

  /** Left to itself, a process that has committed an end writes its closing entry, gives the
      lock and the marker back, and is free for the next operation. */
  lemma Concludes(s: State, w: WorkerId, id: OpId, message: string, ttl: nat) returns (more: seq<Step>)
    requires Live(s, w) && s.procs[w].phase.Closing? && s.procs[w].phase.id == id
    requires id in s.rows && RowValid(s.rows[id]) && HoldsLock(s.redis, id, w, s.now)
    ensures Run(s, more, ttl, Disciplined(ttl))
    ensures var t := After(s, more, ttl, Disciplined(ttl));
      && t.now == s.now && id in t.rows && t.rows[id].status == s.rows[id].status
      && t.rows[id].logs == s.rows[id].logs
           + [LogEntry(|s.rows[id].logs| + 1, ClosingLevel(s.procs[w].phase.outcome), Take(message, 10_000))]
      && id !in t.redis.locks && id !in t.redis.markers && t.redis.list == s.redis.list
      && Live(t, w) && t.procs[w].phase.Idle?
  {
    Closes(s, w, id, message, ttl);
    var rest := LeavesLock(Apply(s, Close(w, message), ttl), w, id, ttl);
    more := OneStepOn(s, Close(w, message), ttl, Disciplined(ttl), rest);
  }

  lemma Closes(s: State, w: WorkerId, id: OpId, message: string, ttl: nat)
    requires Live(s, w) && s.procs[w].phase.Closing? && s.procs[w].phase.id == id
    requires id in s.rows && RowValid(s.rows[id])
    ensures Enabled(s, Close(w, message)) && Disciplined(ttl)(s, Close(w, message))
    ensures var t := Apply(s, Close(w, message), ttl);
      && t.now == s.now && t.redis == s.redis && Live(t, w)
      && t.procs[w].phase == Auditing(id, s.procs[w].phase.outcome)
      && id in t.rows && t.rows[id].status == s.rows[id].status
      && t.rows[id].logs == s.rows[id].logs
           + [LogEntry(|s.rows[id].logs| + 1, ClosingLevel(s.procs[w].phase.outcome), Take(message, 10_000))]
  {
    LoggedKeeps(s.rows[id], ClosingLevel(s.procs[w].phase.outcome), message,
      ClosingProgress(s.procs[w].phase.outcome));
    assert Take(ClosingLevel(s.procs[w].phase.outcome), 20) == ClosingLevel(s.procs[w].phase.outcome);
  }

  lemma LeavesLock(s: State, w: WorkerId, id: OpId, ttl: nat) returns (more: seq<Step>)
    requires Live(s, w) && s.procs[w].phase.Auditing? && s.procs[w].phase.id == id && HoldsLock(s.redis, id, w, s.now)
    ensures Run(s, more, ttl, Disciplined(ttl))
    ensures var t := After(s, more, ttl, Disciplined(ttl));
      && t.now == s.now && t.rows == s.rows && t.redis.list == s.redis.list
      && id !in t.redis.locks && id !in t.redis.markers && Live(t, w) && t.procs[w].phase.Idle?
  {
    var t := Apply(s, Audited(w), ttl);
    assert Live(t, w) && t.procs[w].phase == Releasing(id, false) && t.redis == s.redis;
    var rest := Releases(t, w, id, ttl);
    more := OneStepOn(s, Audited(w), ttl, Disciplined(ttl), rest);
  }

  lemma Releases(s: State, w: WorkerId, id: OpId, ttl: nat) returns (more: seq<Step>)
    requires Live(s, w) && s.procs[w].phase == Releasing(id, false) && HoldsLock(s.redis, id, w, s.now)
    ensures Run(s, more, ttl, Disciplined(ttl))
    ensures var t := After(s, more, ttl, Disciplined(ttl));
      && t.now == s.now && t.rows == s.rows && t.redis.list == s.redis.list
      && id !in t.redis.locks && id !in t.redis.markers && Live(t, w) && t.procs[w].phase.Idle?
  {
    LockRead(s, w, id, ttl);
    var t := Apply(s, ReadLock(w), ttl);
    LockGone(t, w, id, ttl);
    var rest := OneStepOn(t, Release(w), ttl, Disciplined(ttl), []);
    more := OneStepOn(s, ReadLock(w), ttl, Disciplined(ttl), rest);
  }

  lemma LockRead(s: State, w: WorkerId, id: OpId, ttl: nat)
    requires Live(s, w) && s.procs[w].phase == Releasing(id, false) && HoldsLock(s.redis, id, w, s.now)
    ensures var t := Apply(s, ReadLock(w), ttl);
      && Disciplined(ttl)(s, ReadLock(w)) && t.now == s.now && t.rows == s.rows && t.redis == s.redis
      && Live(t, w) && t.procs[w].phase == Deleting(id, true, false)
  {
  }

  lemma LockGone(s: State, w: WorkerId, id: OpId, ttl: nat)
    requires Live(s, w) && s.procs[w].phase == Deleting(id, true, false)
    ensures var t := Apply(s, Release(w), ttl);
      && Disciplined(ttl)(s, Release(w)) && t.now == s.now && t.rows == s.rows && t.redis.list == s.redis.list
      && id !in t.redis.locks && id !in t.redis.markers && Live(t, w) && t.procs[w].phase.Idle?
  {
  }

  lemma LockTaken(s: State, w: WorkerId, id: OpId, ttl: nat)
    requires ttl > 0 && Live(s, w) && s.procs[w].phase == Dequeued(id) && !LockLive(s.redis, id, s.now)
    ensures var t := Apply(s, TryLock(w), ttl);
      && Disciplined(ttl)(s, TryLock(w)) && t.now == s.now && t.rows == s.rows && t.redis.list == s.redis.list
      && Live(t, w) && t.procs[w].phase == Acquired(id) && HoldsLock(t.redis, id, w, t.now)
  {
  }

  lemma RowFetched(s: State, w: WorkerId, id: OpId, ttl: nat)
    requires Live(s, w) && s.procs[w].phase == Acquired(id) && id in s.rows
    ensures var t := Apply(s, Fetch(w), ttl);
      && Disciplined(ttl)(s, Fetch(w)) && t.now == s.now && t.rows == s.rows && t.redis == s.redis && Live(t, w)
      && t.procs[w].phase == if Terminal(s.rows[id].status) then Releasing(id, false) else Fetched(id)
  {
  }

  /** Left to itself, a process with a popped copy whose lock is free executes the operation,
      waiting or begun before, to success, or to the cancellation if it was asked for. */
  lemma Executes(s: State, w: WorkerId, id: OpId, ttl: nat) returns (more: seq<Step>)
    requires ttl > 0 && Live(s, w) && s.procs[w].phase == Dequeued(id) && !LockLive(s.redis, id, s.now)
    requires id in s.rows && !Terminal(s.rows[id].status)
    ensures Run(s, more, ttl, Disciplined(ttl))
    ensures var t := After(s, more, ttl, Disciplined(ttl));
      id in t.rows && t.rows[id].status == if s.rows[id].cancelRequested then Cancelled else Succeeded
  {
    LockTaken(s, w, id, ttl);
    var t := Apply(s, TryLock(w), ttl);
    RowFetched(t, w, id, ttl);
    var rest := RunsOn(Apply(t, Fetch(w), ttl), w, id, ttl);
    rest := OneStepOn(t, Fetch(w), ttl, Disciplined(ttl), rest);
    more := OneStepOn(s, TryLock(w), ttl, Disciplined(ttl), rest);
  }

  /** One with a copy of an operation that has ended gives the lock back and changes no row. */
  lemma SkipsEnded(s: State, w: WorkerId, id: OpId, ttl: nat) returns (more: seq<Step>)
    requires ttl > 0 && Live(s, w) && s.procs[w].phase == Dequeued(id) && !LockLive(s.redis, id, s.now)
    requires id in s.rows && Terminal(s.rows[id].status)
    ensures Run(s, more, ttl, Disciplined(ttl))
    ensures var t := After(s, more, ttl, Disciplined(ttl));
      t.rows == s.rows && id !in t.redis.locks && Live(t, w) && t.procs[w].phase.Idle?
  {
    LockTaken(s, w, id, ttl);
    var t := Apply(s, TryLock(w), ttl);
    RowFetched(t, w, id, ttl);
    var rest := Releases(Apply(t, Fetch(w), ttl), w, id, ttl);
    rest := OneStepOn(t, Fetch(w), ttl, Disciplined(ttl), rest);
    more := OneStepOn(s, TryLock(w), ttl, Disciplined(ttl), rest);
  }

  /** A reader that ended after reading the log in `s`, when the operation had ended, has the
      whole log for good if and only if no process was between the commit of that end and
      the end of its audit. */
  lemma EndedReaderHasAllExactly(s: State, ttl: nat, id: OpId, start: nat, r: Reader)
    requires ttl > 0 && Sound(s) && id in s.rows && RowValid(s.rows[id]) && Terminal(s.rows[id].status)
    requires r.stopped && Exact(r, start, s.rows[id].logs) && r.cursor == |s.rows[id].logs|
    ensures Over(s, id) <==> forall later :: Run(s, later, ttl, Calm(ttl)) ==>
      HasAll(After(s, later, ttl, Calm(ttl)), id, start, r)
  {
    if Over(s, id) {
      forall later | Run(s, later, ttl, Calm(ttl)) ensures HasAll(After(s, later, ttl, Calm(ttl)), id, start, r) {
        OverForGood(s, later, ttl, id);
      }
    } else {
      var w :| Live(s, w) && StillWrites(s.procs[w].phase, id);
      assert InStep(s, s.procs[w]);
      var later := NextEntry(s, w, id, ttl);
      assert !HasAll(After(s, later, ttl, Calm(ttl)), id, start, r);
    }
  }

  ghost predicate HasAll(t: State, id: OpId, start: nat, r: Reader) {
    id in t.rows && start <= |t.rows[id].logs| && r.received == t.rows[id].logs[start..]
  }
}
