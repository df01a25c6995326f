/** Which statuses an operation goes through, and what a committed cancellation prevents. */
module OperationOutcome {
  import opened Basics
  import opened OperationStore
  import opened OperationQueue
  import opened OperationProtocol
  import opened OperationSafety

  // ----- status moves -----

  /** queued -> running -> one terminal status; a fault or a stop during the bootstrap ends
      a queued row directly. */
  predicate AllowedMove(a: Status, b: Status) {
    || a == b
    || (a.Queued? && (b.Running? || b.Failed? || b.Cancelled?))
    || (a.Running? && Terminal(b))
  }

  /** A live process that goes on to mark the row, or to commit another status than FAILED. */
  ghost predicate InHand(s: State, w: WorkerId, id: OpId) {
    && At(s, w, id) && id in s.rows
    && var p := s.procs[w].phase;
       || p.Fetched? || p.Writing? || p.Refreshing? || (p.Settling? && !p.outcome.Failed?)
       || (p.Checking? && !(p.stage.Duplicate? && s.rows[id].cancelRequested))
  }

  /** The operation `w` works on has not ended, or has ended as `outcome` already. */
  predicate NotOverBut(s: State, w: WorkerId, outcome: Status)
    requires w in s.procs && HoldingAny(PhaseOf(s, w))
  {
    var id := PhaseOf(s, w).id;
    id in s.rows ==> !Terminal(s.rows[id].status) || s.rows[id].status == outcome
  }

  /** No exception and no stop signal reaches an execution of an operation that is over. */
  ghost predicate InTime(s: State, e: Step)
    requires Enabled(s, e)
  {
    && (e.Fault? ==> NotOverBut(s, e.w, Failed))
    && (e.Interrupt? ==> NotOverBut(s, e.w, Cancelled))
  }

  /** Exactly the steps after which no terminal status can be rewritten: besides, a recovery
      fails no row of an operation that some live process has in hand. */
  ghost predicate Orderly(s: State, e: Step, ttl: nat)
    requires Enabled(s, e)
  {
    && InTime(s, e)
    && (e.Recover? ==> forall w, id :: InHand(s, w, id) ==> !Stale(s.rows[id], ttl, s.now))
  }

  ghost function Disciplined(ttl: nat): (State, Step) -> bool {
    (s, e) => Leased(s, e) && (Enabled(s, e) ==> Orderly(s, e, ttl))
  }

  /** Between reading a row and marking it, or cancelling it unmarked. */
  predicate InWindow(p: Phase) { p.Fetched? || (p.Settling? && p.outcome.Cancelled?) }

  /** The timing assumption in its place: at every recovery, every live execution is within
      `ttl` of taking its lock, and no stale row is in the window before its mark. */
  ghost predicate Timely(s: State, e: Step, ttl: nat) {
    e.Recover? ==>
      && (forall w, id :: At(s, w, id) ==> s.now < s.procs[w].since + ttl)
      && (forall w, id :: At(s, w, id) && InWindow(s.procs[w].phase) && id in s.rows ==> !Stale(s.rows[id], ttl, s.now))
  }

  ghost function Prompt(ttl: nat): (State, Step) -> bool {
    (s, e) => Leased(s, e) && Timely(s, e, ttl) && (Enabled(s, e) ==> InTime(s, e))
  }

  /** The row as the executor that holds it left it. */
  ghost predicate MarkedSince(s: State, id: OpId, t: int) {
    id in s.rows && s.rows[id].status.Running? && s.rows[id].startedAt.Some? && t <= s.rows[id].startedAt.value
  }

  ghost predicate InStep(s: State, p: Proc) {
    && p.since <= s.now
    && match p.phase
       case Fetched(id) => id in s.rows && !Terminal(s.rows[id].status)
       case Checking(id, st) =>
         && (st.Boot? ==> st.written <= BOOT_ENTRIES)
         && (MarkedSince(s, id, p.since)
             || (st.Duplicate? && id in s.rows && s.rows[id].cancelRequested && s.rows[id].status.Failed?))
       case Writing(id, st) => (st.Boot? ==> st.written < BOOT_ENTRIES) && MarkedSince(s, id, p.since)
       case Refreshing(id, st) => (st.Boot? ==> st.written < BOOT_ENTRIES) && MarkedSince(s, id, p.since)
       case Failing(id, _) => id in s.rows ==> !Terminal(s.rows[id].status) || s.rows[id].status.Failed?
       case Settling(id, outcome, _) =>
         && Terminal(outcome) && id in s.rows
         && (if outcome.Succeeded? || outcome.Skipped? then MarkedSince(s, id, p.since)
             else !Terminal(s.rows[id].status) || s.rows[id].status == outcome)
       case Closing(id, outcome) => Terminal(outcome) && id in s.rows && s.rows[id].status == outcome
       case Auditing(id, outcome) => Terminal(outcome) && id in s.rows && s.rows[id].status == outcome
       case _ => true
  }

  ghost predicate RowsInStep(s: State) {
    forall w :: Live(s, w) ==> InStep(s, s.procs[w])
  }

  /** A step of another process leaves the row of a held operation alone, except
      that it may set the cancel flag or fail a stale row. */
  lemma HeldRow(s: State, e: Step, ttl: nat, w: WorkerId, id: OpId)
    requires Enabled(s, e) && MutuallyExclusive(s) && At(s, w, id) && !By(e, w) && id in s.rows
    ensures id in Apply(s, e, ttl).rows
    ensures var r := Apply(s, e, ttl).rows[id];
      || r == s.rows[id]
      || r == CancelAsked(s.rows[id])
      || (e.Recover? && r == Recovered(s.rows[id], ttl, s.now))
  {
    if !e.Tick? && !e.RequestCancel? && !e.Start? {
      assert !At(s, e.w, id);
    }
  }

  lemma OthersInStep(s: State, e: Step, ttl: nat, w: WorkerId)
    requires Enabled(s, e) && MutuallyExclusive(s) && Orderly(s, e, ttl)
    requires Live(s, w) && !By(e, w) && InStep(s, s.procs[w])
    ensures InStep(Apply(s, e, ttl), s.procs[w])
  {
    var p := s.procs[w].phase;
    if HoldingAny(p) && p.id in s.rows {
      assert At(s, w, p.id);
      HeldRow(s, e, ttl, w, p.id);
      assert e.Recover? && InHand(s, w, p.id) ==> !Stale(s.rows[p.id], ttl, s.now);
    }
  }

  lemma ActorInStep(s: State, e: Step, ttl: nat)
    requires ttl > 0 && Enabled(s, e) && Orderly(s, e, ttl) && !e.Tick? && !e.RequestCancel?
    requires Live(s, e.w) ==> InStep(s, s.procs[e.w])
    ensures ProcAfter(s, e).alive ==> InStep(Apply(s, e, ttl), ProcAfter(s, e))
  {
  }

  lemma RowsInStepKept(s: State, e: Step, ttl: nat)
    requires ttl > 0 && Enabled(s, e) && MutuallyExclusive(s) && Orderly(s, e, ttl) && RowsInStep(s)
    ensures RowsInStep(Apply(s, e, ttl))
  {
    var t := Apply(s, e, ttl);
    forall w | Live(t, w)
      ensures InStep(t, t.procs[w])
    {
      if By(e, w) {
        ActorInStep(s, e, ttl);
      } else {
        StepFrame(s, e, ttl, w);
        OthersInStep(s, e, ttl, w);
      }
    }
  }

  ghost predicate Sound(s: State) { Leases(s) && RowsInStep(s) }

  lemma SoundStep(s: State, e: Step, ttl: nat)
    requires ttl > 0 && Enabled(s, e) && Sound(s) && Disciplined(ttl)(s, e)
    ensures Sound(Apply(s, e, ttl))
  {
    LeasesStep(s, e, ttl);
    LeasesExclude(s);
    RowsInStepKept(s, e, ttl);
  }

  /** Statuses move forward only, and a terminal one is never rewritten. */
  lemma MovesForward(s: State, e: Step, ttl: nat, id: OpId)
    requires Enabled(s, e) && Orderly(s, e, ttl) && RowsInStep(s) && id in s.rows
    ensures id in Apply(s, e, ttl).rows
    ensures AllowedMove(s.rows[id].status, Apply(s, e, ttl).rows[id].status)
  {
    if e.Mark? || e.Commit? { assert InStep(s, s.procs[e.w]); }
  }

  /** In states in step with their executors, timing gives the rest: an execution within
      `ttl` of its lock marked its row less than `ttl` ago. */
  lemma PromptIsOrderly(s: State, e: Step, ttl: nat)
    requires ttl > 0 && Enabled(s, e) && RowsInStep(s) && Prompt(ttl)(s, e)
    ensures Orderly(s, e, ttl)
  {
    if e.Recover? {
      forall w, id | InHand(s, w, id) ensures !Stale(s.rows[id], ttl, s.now) {
        assert At(s, w, id) && InStep(s, s.procs[w]);
      }
    }
  }

  /** So every prompt run is a disciplined one. */
  lemma {:induction false} PromptRun(s: State, steps: seq<Step>, ttl: nat)
    requires ttl > 0 && Sound(s) && Run(s, steps, ttl, Prompt(ttl))
    ensures Run(s, steps, ttl, Disciplined(ttl))
    ensures After(s, steps, ttl, Prompt(ttl)) == After(s, steps, ttl, Disciplined(ttl))
    ensures Sound(After(s, steps, ttl, Prompt(ttl)))
    decreases |steps|
  {
    if steps != [] {
      PromptIsOrderly(s, steps[0], ttl);
      SoundStep(s, steps[0], ttl);
      PromptRun(Apply(s, steps[0], ttl), steps[1..], ttl);
    }
  }

  /** Over every disciplined run, and so over every prompt one, rows stay in step with
      their executors. */
  lemma RunStaysInStep(now: int, steps: seq<Step>, ttl: nat)
    requires ttl > 0
    ensures Run(Initial(now), steps, ttl, Disciplined(ttl)) ==> Sound(After(Initial(now), steps, ttl, Disciplined(ttl)))
    ensures Run(Initial(now), steps, ttl, Prompt(ttl)) ==> Sound(After(Initial(now), steps, ttl, Prompt(ttl)))
  {
    if Run(Initial(now), steps, ttl, Prompt(ttl)) { PromptRun(Initial(now), steps, ttl); }
    if Run(Initial(now), steps, ttl, Disciplined(ttl)) {
      forall t, e | Sound(t) && Enabled(t, e) && Disciplined(ttl)(t, e)
        ensures Sound(Apply(t, e, ttl))
      {
        SoundStep(t, e, ttl);
      }
      RunKeeps(Initial(now), steps, ttl, Disciplined(ttl), Sound);
    }
  }

  /** In every prompt run each step moves every status forward, if at all. */
  lemma RunMovesForward(now: int, before: seq<Step>, e: Step, ttl: nat, id: OpId)
    requires ttl > 0 && Run(Initial(now), before, ttl, Prompt(ttl))
    requires var s := After(Initial(now), before, ttl, Prompt(ttl)); Enabled(s, e) && Prompt(ttl)(s, e) && id in s.rows
    ensures var s := After(Initial(now), before, ttl, Prompt(ttl));
      id in Apply(s, e, ttl).rows && AllowedMove(s.rows[id].status, Apply(s, e, ttl).rows[id].status)
  {
    var s := After(Initial(now), before, ttl, Prompt(ttl));
    RunStaysInStep(now, before, ttl);
    PromptIsOrderly(s, e, ttl);
    MovesForward(s, e, ttl, id);
  }

  /** In every prompt run no recovery changes the row of an operation that a live process
      has in hand, or has marked since it took the lock. */
  lemma RecoverySparesLive(now: int, before: seq<Step>, w: WorkerId, queued: seq<OpId>, ttl: nat, v: WorkerId, id: OpId)
    requires ttl > 0 && Run(Initial(now), before, ttl, Prompt(ttl))
    requires var s := After(Initial(now), before, ttl, Prompt(ttl));
      && Enabled(s, Recover(w, queued)) && Prompt(ttl)(s, Recover(w, queued))
      && (InHand(s, v, id) || (At(s, v, id) && MarkedSince(s, id, s.procs[v].since)))
    ensures var s := After(Initial(now), before, ttl, Prompt(ttl));
      Apply(s, Recover(w, queued), ttl).rows[id] == s.rows[id]
  {
    var s := After(Initial(now), before, ttl, Prompt(ttl));
    RunStaysInStep(now, before, ttl);
    PromptIsOrderly(s, Recover(w, queued), ttl);
    assert At(s, v, id);
  }

  lemma FinalOnce(s: State, steps: seq<Step>, ttl: nat, id: OpId)
    requires ttl > 0 && Sound(s) && Run(s, steps, ttl, Disciplined(ttl)) && id in s.rows && Terminal(s.rows[id].status)
    ensures var t := After(s, steps, ttl, Disciplined(ttl)); id in t.rows && t.rows[id].status == s.rows[id].status
  {
    var inv := (t: State) => Sound(t) && id in t.rows && t.rows[id].status == s.rows[id].status;
    forall t, e | inv(t) && Enabled(t, e) && Disciplined(ttl)(t, e)
      ensures inv(Apply(t, e, ttl))
    {
      SoundStep(t, e, ttl);
      MovesForward(t, e, ttl, id);
    }
    RunKeeps(s, steps, ttl, Disciplined(ttl), inv);
  }

  /** A terminal status reached at any point of a prompt run is the status ever after,
      however many stale copies of the id are still delivered. */
  lemma TerminalIsFinal(now: int, before: seq<Step>, after: seq<Step>, ttl: nat, id: OpId)
    requires ttl > 0 && Run(Initial(now), before, ttl, Prompt(ttl))
    requires var s := After(Initial(now), before, ttl, Prompt(ttl));
      Run(s, after, ttl, Prompt(ttl)) && id in s.rows && Terminal(s.rows[id].status)
    ensures var s := After(Initial(now), before, ttl, Prompt(ttl));
      var t := After(s, after, ttl, Prompt(ttl));
      id in t.rows && t.rows[id].status == s.rows[id].status
  {
    var s := After(Initial(now), before, ttl, Prompt(ttl));
    RunStaysInStep(now, before, ttl);
    PromptRun(s, after, ttl);
    FinalOnce(s, after, ttl, id);
  }

  // ----- nothing less than Orderly will do -----

  /** How far an execution that is left to itself is from its commit. */
  function Distance(p: Phase): nat {
    match p
    case Fetched(_) => 30
    case Checking(_, Boot(k)) => if k <= BOOT_ENTRIES then 12 + 3 * (BOOT_ENTRIES - k) else 0
    case Writing(_, Boot(k)) => if k < BOOT_ENTRIES then 11 + 3 * (BOOT_ENTRIES - k) else 0
    case Refreshing(_, Boot(k)) => if k < BOOT_ENTRIES then 10 + 3 * (BOOT_ENTRIES - k) else 0
    case Writing(_, Handler) => 11
    case Refreshing(_, Handler) => 10
    case Checking(_, Handler) => 9
    case Checking(_, _) => 7
    case Writing(_, _) => 6
    case Refreshing(_, _) => 5
    case Settling(_, _, _) => 1
    case _ => 0
  }

  /** The next step of an execution that goes on without a fault. */
  function Onward(w: WorkerId, p: Phase): Step {
    match p
    case Fetched(_) => Mark(w)
    case Checking(_, Boot(k)) => if k == BOOT_ENTRIES then Dispatch(w) else Check(w)
    case Checking(_, Handler) => Return(w)
    case Checking(_, _) => Check(w)
    case Writing(_, _) => Write(w, 0, "", "")
    case Refreshing(_, _) => Refresh(w)
    case _ => Commit(w, "")
  }

  /** What it takes to go on: a row, and a stage that exists. */
  ghost predicate GoesOn(s: State, w: WorkerId, id: OpId) {
    && InHand(s, w, id)
    && var p := s.procs[w].phase;
       && (p.Settling? ==> Terminal(p.outcome))
       && (p.Checking? && p.stage.Boot? ==> p.stage.written <= BOOT_ENTRIES)
       && ((p.Writing? || p.Refreshing?) && p.stage.Boot? ==> p.stage.written < BOOT_ENTRIES)
  }

  /** Where an execution in hand that is left to itself ends: a set flag is read at the next
      checkpoint that follows. */
  function Destined(p: Phase, flagged: bool): Status {
    match p
    case Settling(_, outcome, _) => outcome
    case Checking(_, Duplicate) => Skipped
    case Writing(_, Duplicate) => Skipped
    case Refreshing(_, Duplicate) => Skipped
    case Writing(_, Final) => Succeeded
    case Refreshing(_, Final) => Succeeded
    case _ => if flagged then Cancelled else Succeeded
  }

  /** One step on: the commit, or a phase nearer to it. */
  ghost predicate Nearer(s: State, w: WorkerId, id: OpId, e: Step, ttl: nat)
    requires GoesOn(s, w, id)
  {
    && Enabled(s, e) && !e.Tick? && !e.Fault? && !e.Interrupt? && !e.Recover?
    && var t := Apply(s, e, ttl);
       && id in t.rows
       && var end := Destined(s.procs[w].phase, s.rows[id].cancelRequested);
       && if e.Commit? then Terminal(t.rows[id].status) && t.rows[id].status == end
          else GoesOn(t, w, id) && Distance(t.procs[w].phase) < Distance(s.procs[w].phase)
               && Destined(t.procs[w].phase, t.rows[id].cancelRequested) == end
  }

  lemma OnwardChecks(s: State, w: WorkerId, id: OpId, ttl: nat)
    requires GoesOn(s, w, id) && s.procs[w].phase.Checking?
    ensures Nearer(s, w, id, Onward(w, s.procs[w].phase), ttl)
  {
    var p := s.procs[w].phase;
    var t := Apply(s, Onward(w, p), ttl);
    assert t.procs[w].alive && t.procs[w].phase == PhaseAfter(s, Onward(w, p)) && t.rows == s.rows;
  }

  lemma OnwardWrites(s: State, w: WorkerId, id: OpId, ttl: nat)
    requires GoesOn(s, w, id) && s.procs[w].phase.Writing?
    ensures Nearer(s, w, id, Onward(w, s.procs[w].phase), ttl)
  {
    var t := Apply(s, Onward(w, s.procs[w].phase), ttl);
    assert t.procs[w].alive && t.procs[w].phase == Refreshing(id, s.procs[w].phase.stage);
    assert t.rows[id].cancelRequested == s.rows[id].cancelRequested;
  }

  lemma OnwardRefreshes(s: State, w: WorkerId, id: OpId, ttl: nat)
    requires GoesOn(s, w, id) && s.procs[w].phase.Refreshing?
    ensures Nearer(s, w, id, Onward(w, s.procs[w].phase), ttl)
  {
    var t := Apply(s, Onward(w, s.procs[w].phase), ttl);
    assert t.procs[w].alive && t.procs[w].phase == AfterEntry(id, s.procs[w].phase.stage) && t.rows == s.rows;
  }

  lemma OnwardStep(s: State, w: WorkerId, id: OpId, ttl: nat)
    requires GoesOn(s, w, id)
    ensures Nearer(s, w, id, Onward(w, s.procs[w].phase), ttl)
  {
    var p := s.procs[w].phase;
    if p.Checking? { OnwardChecks(s, w, id, ttl); }
    else if p.Writing? { OnwardWrites(s, w, id, ttl); }
    else if p.Refreshing? { OnwardRefreshes(s, w, id, ttl); }
    else {
      var t := Apply(s, Onward(w, p), ttl);
      assert t.procs[w].alive && t.procs[w].phase == PhaseAfter(s, Onward(w, p));
    }
  }

  /** An execution in hand that is left to itself commits the status it is destined for:
      success, or the cancellation that was asked for before its next checkpoint. */
  lemma {:induction false} RunsOn(s: State, w: WorkerId, id: OpId, ttl: nat) returns (more: seq<Step>)
    requires GoesOn(s, w, id)
    ensures Run(s, more, ttl, Disciplined(ttl))
    ensures var t := After(s, more, ttl, Disciplined(ttl));
      id in t.rows && Terminal(t.rows[id].status)
      && t.rows[id].status == Destined(s.procs[w].phase, s.rows[id].cancelRequested)
    decreases Distance(s.procs[w].phase)
  {
    var e := Onward(w, s.procs[w].phase);
    OnwardStep(s, w, id, ttl);
    if e.Commit? {
      more := [e];
      assert [e][1..] == [];
    } else {
      var rest := RunsOn(Apply(s, e, ttl), w, id, ttl);
      more := [e] + rest;
      assert more[1..] == rest;
    }
  }

  /** After `e` some operation has ended, and a disciplined run of one process leads to
      another status of it. */
  ghost predicate Rewrites(s: State, e: Step, ttl: nat)
    requires Enabled(s, e)
  {
    exists id, more :: RewritesBy(Apply(s, e, ttl), id, more, ttl)
  }

  ghost predicate RewritesBy(t: State, id: OpId, more: seq<Step>, ttl: nat) {
    && id in t.rows && Terminal(t.rows[id].status)
    && Run(t, more, ttl, Disciplined(ttl))
    && var end := After(t, more, ttl, Disciplined(ttl)); id in end.rows && end.rows[id].status != t.rows[id].status
  }

  /** An exception inside the execution of an operation that has ended otherwise: FAILED. */
  lemma LateFaultRewrites(s: State, w: WorkerId, ttl: nat)
    requires Enabled(s, Fault(w)) && !NotOverBut(s, w, Failed)
    ensures Rewrites(s, Fault(w), ttl)
  {
    var id, t := s.procs[w].phase.id, Apply(s, Fault(w), ttl);
    assert t.procs[w].alive && t.procs[w].phase == Failing(id, PendingAny(s.procs[w].phase)) && t.rows == s.rows;
    var more := FailingCommits(t, w, id, ttl);
    assert RewritesBy(t, id, more, ttl);
  }

  lemma FailingCommits(t: State, w: WorkerId, id: OpId, ttl: nat) returns (more: seq<Step>)
    requires Live(t, w) && t.procs[w].phase.Failing? && t.procs[w].phase.id == id && id in t.rows
    ensures Run(t, more, ttl, Disciplined(ttl))
    ensures var end := After(t, more, ttl, Disciplined(ttl)); id in end.rows && end.rows[id].status.Failed?
  {
    var u := Apply(t, Report(w, ""), ttl);
    assert u.procs[w].alive && u.procs[w].phase == Settling(id, Failed, t.procs[w].phase.pending);
    var rest := SettlingCommits(u, w, id, ttl);
    more := [Report(w, "")] + rest;
    assert more[1..] == rest;
  }

  lemma SettlingCommits(t: State, w: WorkerId, id: OpId, ttl: nat) returns (more: seq<Step>)
    requires Live(t, w) && t.procs[w].phase.Settling? && t.procs[w].phase.id == id && id in t.rows
    requires Terminal(t.procs[w].phase.outcome)
    ensures Run(t, more, ttl, Disciplined(ttl))
    ensures var end := After(t, more, ttl, Disciplined(ttl));
      id in end.rows && end.rows[id].status == t.procs[w].phase.outcome
  {
    more := [Commit(w, "")];
    assert more[1..] == [];
  }

  /** The stop signal inside such an execution: CANCELLED. */
  lemma LateInterruptRewrites(s: State, w: WorkerId, ttl: nat)
    requires Enabled(s, Interrupt(w)) && !NotOverBut(s, w, Cancelled)
    ensures Rewrites(s, Interrupt(w), ttl)
  {
    var id, t := s.procs[w].phase.id, Apply(s, Interrupt(w), ttl);
    assert t.procs[w].alive && t.procs[w].phase == Settling(id, Cancelled, PendingAny(s.procs[w].phase)) &&
      t.rows == s.rows;
    var more := SettlingCommits(t, w, id, ttl);
    assert RewritesBy(t, id, more, ttl);
  }

  /** A recovery that fails the row of an execution in hand, in whichever phase: the
      execution goes on to mark the row or to commit another status. */
  lemma RecoveryRewrites(s: State, w: WorkerId, queued: seq<OpId>, v: WorkerId, id: OpId, ttl: nat)
    requires Enabled(s, Recover(w, queued)) && RowsInStep(s) && InHand(s, v, id) && Stale(s.rows[id], ttl, s.now)
    ensures Rewrites(s, Recover(w, queued), ttl)
  {
    var t := Apply(s, Recover(w, queued), ttl);
    assert InStep(s, s.procs[v]) && v != w && t.procs[v] == s.procs[v];
    assert t.rows[id] == Recovered(s.rows[id], ttl, s.now);
    var more := RunsOn(t, v, id, ttl);
    assert RewritesBy(t, id, more, ttl);
  }

  /** Orderly is the exact condition: from a state in step with its executors, a step keeps
      all terminal statuses out of reach of disciplined continuations if and only if it is
      orderly. */
  lemma OrderlyExactly(s: State, e: Step, ttl: nat)
    requires ttl > 0 && Enabled(s, e) && Leased(s, e) && Sound(s)
    ensures Orderly(s, e, ttl) <==> !Rewrites(s, e, ttl)
  {
    if Orderly(s, e, ttl) {
      SoundStep(s, e, ttl);
      var t := Apply(s, e, ttl);
      forall id, more | RewritesBy(t, id, more, ttl) ensures false { FinalOnce(t, more, ttl, id); }
    } else if e.Fault? {
      LateFaultRewrites(s, e.w, ttl);
    } else if e.Interrupt? {
      LateInterruptRewrites(s, e.w, ttl);
    } else {
      var v, id :| InHand(s, v, id) && Stale(s.rows[id], ttl, s.now);
      RecoveryRewrites(s, e.w, e.queued, v, id, ttl);
    }
  }

  // ----- cancellation -----

  /** Past the checkpoint before `complete` or `skip` with the flag read as unset. */
  predicate NearSuccess(p: Phase, id: OpId) {
    match p
    case Writing(x, st) => x == id && (st.Final? || st.Duplicate?)
    case Refreshing(x, st) => x == id && (st.Final? || st.Duplicate?)
    case Settling(x, outcome, _) => x == id && (outcome.Succeeded? || outcome.Skipped?)
    case _ => false
  }

  /** Past the last checkpoint before the dispatch. */
  predicate NearDispatch(p: Phase, id: OpId) {
    match p
    case Writing(x, st) => x == id && st == Boot(BOOT_ENTRIES - 1)
    case Refreshing(x, st) => x == id && st == Boot(BOOT_ENTRIES - 1)
    case Checking(x, st) => x == id && st == Boot(BOOT_ENTRIES)
    case _ => false
  }

  /** Cancellation is committed, and no live process has read the flag as unset at
      the checkpoint before `complete` or `skip` without having acted on it. */
  ghost predicate CancelStops(s: State, id: OpId) {
    && id in s.rows && s.rows[id].cancelRequested
    && !s.rows[id].status.Succeeded? && !s.rows[id].status.Skipped?
    && forall w :: Live(s, w) ==> !NearSuccess(s.procs[w].phase, id)
  }

  /** Cancellation is committed, the handler has been dispatched `n` times, and no
      live process has passed the last checkpoint before the dispatch. */
  ghost predicate CancelHolds(s: State, id: OpId, n: nat) {
    && id in s.rows && s.rows[id].cancelRequested && s.history.dispatched[id] == n
    && forall w :: Live(s, w) ==> !NearDispatch(s.procs[w].phase, id)
  }

  lemma FlagStays(s: State, e: Step, ttl: nat, id: OpId)
    requires Enabled(s, e) && id in s.rows && s.rows[id].cancelRequested
    ensures id in Apply(s, e, ttl).rows && Apply(s, e, ttl).rows[id].cancelRequested
  {
  }

  lemma CancelStopsStep(s: State, e: Step, ttl: nat, id: OpId)
    requires Enabled(s, e) && CancelStops(s, id)
    ensures CancelStops(Apply(s, e, ttl), id)
  {
    var t := Apply(s, e, ttl);
    FlagStays(s, e, ttl, id);
    forall w | Live(t, w) ensures !NearSuccess(t.procs[w].phase, id) {
      if !By(e, w) { StepFrame(s, e, ttl, w); }
    }
  }

  lemma CancelHoldsStep(s: State, e: Step, ttl: nat, id: OpId, n: nat)
    requires Enabled(s, e) && CancelHolds(s, id, n)
    ensures CancelHolds(Apply(s, e, ttl), id, n)
  {
    var t := Apply(s, e, ttl);
    FlagStays(s, e, ttl, id);
    forall w | Live(t, w) ensures !NearDispatch(t.procs[w].phase, id) {
      if !By(e, w) { StepFrame(s, e, ttl, w); }
    }
  }

  /** Succeeds, is skipped, or is dispatched once more, in some run from `s`. */
  ghost predicate EndsWell(s: State, id: OpId, ttl: nat) {
    exists more :: EndsWellBy(s, id, ttl, more)
  }

  ghost predicate EndsWellBy(s: State, id: OpId, ttl: nat, more: seq<Step>) {
    && Run(s, more, ttl, Unconditional)
    && var t := After(s, more, ttl, Unconditional);
       id in t.rows && (t.rows[id].status.Succeeded? || t.rows[id].status.Skipped?)
  }

  ghost predicate IsDispatched(s: State, id: OpId, ttl: nat) {
    exists more :: IsDispatchedBy(s, id, ttl, more)
  }

  ghost predicate IsDispatchedBy(s: State, id: OpId, ttl: nat, more: seq<Step>) {
    && Run(s, more, ttl, Unconditional)
    && After(s, more, ttl, Unconditional).history.dispatched[id] > s.history.dispatched[id]
  }

  /** A process past the checkpoint can still commit success or the skip. */
  lemma {:induction false} NearSuccessEndsWell(s: State, w: WorkerId, id: OpId, ttl: nat)
    requires Live(s, w) && id in s.rows && NearSuccess(s.procs[w].phase, id)
    ensures EndsWell(s, id, ttl)
    decreases Distance(s.procs[w].phase)
  {
    var p := s.procs[w].phase;
    var e := Onward(w, p);
    var t := Apply(s, e, ttl);
    assert t.procs[w].alive && t.procs[w].phase == PhaseAfter(s, e) && id in t.rows;
    var rest := [];
    if !p.Settling? {
      NearSuccessEndsWell(t, w, id, ttl);
      rest :| EndsWellBy(t, id, ttl, rest);
    }
    var more := OneStepOn(s, e, ttl, Unconditional, rest);
    assert EndsWellBy(s, id, ttl, more);
  }

  /** A process past the last bootstrap checkpoint can still dispatch the handler. */
  lemma {:induction false} NearDispatchIsDispatched(s: State, w: WorkerId, id: OpId, ttl: nat)
    requires Live(s, w) && id in s.rows && NearDispatch(s.procs[w].phase, id)
    ensures IsDispatched(s, id, ttl)
    decreases Distance(s.procs[w].phase)
  {
    var p := s.procs[w].phase;
    var e := Onward(w, p);
    var t := Apply(s, e, ttl);
    assert t.procs[w].alive && t.procs[w].phase == PhaseAfter(s, e) && id in t.rows;
    var rest := [];
    if !p.Checking? {
      NearDispatchIsDispatched(t, w, id, ttl);
      rest :| IsDispatchedBy(t, id, ttl, rest);
    }
    var more := OneStepOn(s, e, ttl, Unconditional, rest);
    assert IsDispatchedBy(s, id, ttl, more);
  }

  /** Asking for the cancellation of an unfinished operation keeps it from succeeding and
      from being skipped, in every run that follows, if and only if no live process is past the
      checkpoint before that commit; and it keeps the handler from being dispatched again if
      and only if no live process is past the last bootstrap checkpoint. */
  lemma RequestHonouredExactly(s: State, id: OpId, ttl: nat)
    requires id in s.rows && !Terminal(s.rows[id].status)
    ensures var t := Apply(s, RequestCancel(id), ttl);
      && (EndsWell(t, id, ttl) <==> exists w :: Live(s, w) && NearSuccess(s.procs[w].phase, id))
      && (IsDispatched(t, id, ttl) <==> exists w :: Live(s, w) && NearDispatch(s.procs[w].phase, id))
  {
    var t := Apply(s, RequestCancel(id), ttl);
    if w :| Live(s, w) && NearSuccess(s.procs[w].phase, id) {
      NearSuccessEndsWell(t, w, id, ttl);
    } else {
      assert CancelStops(t, id);
      forall more | EndsWellBy(t, id, ttl, more) ensures false { CancellationIsHonoured(t, more, ttl, id); }
    }
    if w :| Live(s, w) && NearDispatch(s.procs[w].phase, id) {
      NearDispatchIsDispatched(t, w, id, ttl);
    } else {
      assert CancelHolds(t, id, t.history.dispatched[id]);
      forall more | IsDispatchedBy(t, id, ttl, more) ensures false { CancellationIsHonoured(t, more, ttl, id); }
    }
  }

  /** A cancellation committed before the checkpoint that precedes `complete` or
      `skip` is never followed by success or a skip, and one committed before the
      last bootstrap checkpoint is never followed by another dispatch: in every
      run, with no timing or fault assumption. */
  lemma CancellationIsHonoured(s: State, steps: seq<Step>, ttl: nat, id: OpId)
    requires Run(s, steps, ttl, Unconditional)
    ensures var t := After(s, steps, ttl, Unconditional);
      && (CancelStops(s, id) ==> id in t.rows && !t.rows[id].status.Succeeded? && !t.rows[id].status.Skipped?)
      && (CancelHolds(s, id, s.history.dispatched[id]) ==> t.history.dispatched[id] == s.history.dispatched[id])
  {
    if CancelStops(s, id) {
      var inv := (t: State) => CancelStops(t, id);
      forall t, e | inv(t) && Enabled(t, e) ensures inv(Apply(t, e, ttl)) { CancelStopsStep(t, e, ttl, id); }
      RunKeeps(s, steps, ttl, Unconditional, inv);
    }
    var n := s.history.dispatched[id];
    if CancelHolds(s, id, n) {
      var inv := (t: State) => CancelHolds(t, id, n);
      forall t, e | inv(t) && Enabled(t, e) ensures inv(Apply(t, e, ttl)) { CancelHoldsStep(t, e, ttl, id, n); }
      RunKeeps(s, steps, ttl, Unconditional, inv);
    }
  }
}
