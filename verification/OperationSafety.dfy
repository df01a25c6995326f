/** Mutual exclusion, conservation of dispatches, and truthful markers, over every run. */
module OperationSafety {
  import opened Basics
  import opened OperationStore
  import opened OperationQueue
  import opened OperationProtocol

  /** Every live process working under a lock still owns it. */
  ghost predicate Leases(s: State) {
    forall w, id :: At(s, w, id) ==>
      && HoldsLock(s.redis, id, w, s.now)
      && (s.procs[w].phase.Deleting? ==> s.procs[w].phase.owned)
  }

  /** The one timing assumption: time does not run past the expiry of a lock that
      a live process is working under (every checkpoint refreshes it). */
  ghost predicate Leased(s: State, e: Step) {
    e.Tick? ==> forall w, id :: At(s, w, id) && HoldsLock(s.redis, id, w, s.now) ==>
      s.now + e.d < s.redis.locks[id].expires
  }

  /** A step changes only the process that takes it, and only three steps touch a lock. */
  lemma StepFrame(s: State, e: Step, ttl: nat, v: WorkerId)
    requires Enabled(s, e) && !By(e, v)
    ensures Live(Apply(s, e, ttl), v) == Live(s, v)
    ensures v in s.procs ==> v in Apply(s, e, ttl).procs && Apply(s, e, ttl).procs[v] == s.procs[v]
  {
  }

  lemma LeaseKept(s: State, e: Step, ttl: nat, w: WorkerId, id: OpId)
    requires ttl > 0 && Enabled(s, e) && Leases(s) && Leased(s, e)
    requires At(s, w, id) && !(e == Release(w))
    ensures HoldsLock(Apply(s, e, ttl).redis, id, w, Apply(s, e, ttl).now)
  {
    assert HoldsLock(s.redis, id, w, s.now);
    match e
    case Release(v) =>
      var x := s.procs[v].phase.id;
      assert At(s, v, x) && HoldsLock(s.redis, x, v, s.now);
    case _ =>
  }

  lemma LeasesStep(s: State, e: Step, ttl: nat)
    requires ttl > 0 && Enabled(s, e) && Leases(s) && Leased(s, e)
    ensures Leases(Apply(s, e, ttl))
  {
    var t := Apply(s, e, ttl);
    forall w, id | At(t, w, id)
      ensures HoldsLock(t.redis, id, w, t.now) && (t.procs[w].phase.Deleting? ==> t.procs[w].phase.owned)
    {
      if !By(e, w) { StepFrame(s, e, ttl, w); }
      if At(s, w, id) {
        assert HoldsLock(s.redis, id, w, s.now);
        LeaseKept(s, e, ttl, w, id);
      } else {
        assert e == TryLock(w);
      }
    }
  }

  ghost predicate MutuallyExclusive(s: State) {
    forall v, w, id :: At(s, v, id) && At(s, w, id) ==> v == w
  }

  lemma LeasesExclude(s: State)
    requires Leases(s)
    ensures MutuallyExclusive(s)
  {
  }

  // ----- every dispatch of a handler is accounted for -----

  ghost predicate PendingLive(s: State, id: OpId) {
    exists w :: Live(s, w) && Pending(s.procs[w].phase, id)
  }

  /** A dispatch is settled by a terminal commit, abandoned by the death of its
      executor, or still in the hands of the one live executor; it is settled at
      most once, and after that nobody works on the operation again. */
  ghost predicate Accounted(s: State, id: OpId) {
    && s.history.dispatched[id]
       == s.history.settled[id] + s.history.abandoned[id] + (if PendingLive(s, id) then 1 else 0)
    && s.history.settled[id] <= 1
    && (s.history.settled[id] == 1 ==>
          && id in s.rows && Terminal(s.rows[id].status)
          && forall w :: Live(s, w) ==> !Engaged(s.procs[w].phase, id))
  }

  /** Only the process that takes the step can become or stop being pending. */
  lemma PendingFrame(s: State, e: Step, ttl: nat, id: OpId)
    requires Enabled(s, e) && MutuallyExclusive(s)
    requires !e.Tick? && !e.RequestCancel?
    requires Live(s, e.w) && Holding(s.procs[e.w].phase, id)
    ensures PendingLive(s, id) == Pending(s.procs[e.w].phase, id)
    ensures PendingLive(Apply(s, e, ttl), id) == (ProcAfter(s, e).alive && Pending(ProcAfter(s, e).phase, id))
  {
    var t := Apply(s, e, ttl);
    assert At(s, e.w, id);
    forall w | Live(s, w) && Pending(s.procs[w].phase, id)
      ensures w == e.w
    {
      assert At(s, w, id) ==> w == e.w;
    }
    forall w | Live(t, w) && Pending(t.procs[w].phase, id)
      ensures w == e.w
    {
      if !By(e, w) { StepFrame(s, e, ttl, w); }
      assert At(s, w, id) ==> w == e.w;
    }
    assert t.procs[e.w] == ProcAfter(s, e);
  }

  lemma PendingElsewhere(s: State, e: Step, ttl: nat, id: OpId)
    requires Enabled(s, e)
    requires e.Tick? || e.RequestCancel? || !(Live(s, e.w) && Holding(s.procs[e.w].phase, id))
    ensures PendingLive(Apply(s, e, ttl), id) == PendingLive(s, id)
  {
    var t := Apply(s, e, ttl);
    forall w
      ensures (Live(t, w) && Pending(t.procs[w].phase, id)) == (Live(s, w) && Pending(s.procs[w].phase, id))
    {
      if !By(e, w) { StepFrame(s, e, ttl, w); }
    }
  }

  lemma TerminalKept(s: State, e: Step, ttl: nat, id: OpId)
    requires Enabled(s, e) && id in s.rows && Terminal(s.rows[id].status)
    requires !(e.Mark? && PhaseOf(s, e.w).id == id)
    ensures id in Apply(s, e, ttl).rows && Terminal(Apply(s, e, ttl).rows[id].status)
  {
  }

  predicate HandsOn(s: State, e: Step, id: OpId)
    requires Enabled(s, e)
  {
    !e.Tick? && !e.RequestCancel? && Live(s, e.w) && Holding(s.procs[e.w].phase, id)
  }

  lemma CountsElsewhere(s: State, e: Step, ttl: nat, id: OpId)
    requires Enabled(s, e) && !HandsOn(s, e, id)
    ensures var h, h' := s.history, Apply(s, e, ttl).history;
      h'.dispatched[id] == h.dispatched[id] && h'.settled[id] == h.settled[id] && h'.abandoned[id] == h.abandoned[id]
  {
  }

  /** The process's own step moves its dispatch from pending to settled or abandoned. */
  lemma CountsMove(s: State, e: Step, ttl: nat, id: OpId)
    requires Enabled(s, e) && HandsOn(s, e, id)
    ensures var h, h' := s.history, Apply(s, e, ttl).history;
      var pending := Pending(s.procs[e.w].phase, id);
      var pending' := ProcAfter(s, e).alive && Pending(ProcAfter(s, e).phase, id);
      && h'.dispatched[id] + h.settled[id] + h.abandoned[id] + (if pending then 1 else 0)
         == h.dispatched[id] + h'.settled[id] + h'.abandoned[id] + (if pending' then 1 else 0)
      && h'.settled[id] <= h.settled[id] + (if pending then 1 else 0)
  {
  }

  lemma CountsInHand(s: State, e: Step, ttl: nat, id: OpId)
    requires Enabled(s, e) && HandsOn(s, e, id) && MutuallyExclusive(s) && Accounted(s, id)
    ensures var h := Apply(s, e, ttl).history;
      && h.dispatched[id] == h.settled[id] + h.abandoned[id] + (if PendingLive(Apply(s, e, ttl), id) then 1 else 0)
      && h.settled[id] <= 1
  {
    PendingFrame(s, e, ttl, id);
    CountsMove(s, e, ttl, id);
    assert Pending(s.procs[e.w].phase, id) ==> Engaged(s.procs[e.w].phase, id);
  }

  lemma AccountedStep(s: State, e: Step, ttl: nat, id: OpId)
    requires Enabled(s, e) && MutuallyExclusive(s) && Accounted(s, id)
    ensures Accounted(Apply(s, e, ttl), id)
  {
    if HandsOn(s, e, id) {
      CountsInHand(s, e, ttl, id);
    } else {
      PendingElsewhere(s, e, ttl, id);
      CountsElsewhere(s, e, ttl, id);
    }
    if Apply(s, e, ttl).history.settled[id] == 1 {
      SettledStays(s, e, ttl, id);
    }
  }

  lemma SettledRow(s: State, e: Step, ttl: nat, id: OpId)
    requires Enabled(s, e) && MutuallyExclusive(s) && Accounted(s, id)
    requires Apply(s, e, ttl).history.settled[id] == 1
    ensures id in Apply(s, e, ttl).rows && Terminal(Apply(s, e, ttl).rows[id].status)
    ensures s.history.settled[id] == 1 || (e.Commit? && At(s, e.w, id))
  {
    if s.history.settled[id] == 1 {
      TerminalKept(s, e, ttl, id);
    } else {
      assert e.Commit? && At(s, e.w, id);
    }
  }

  lemma SettledStays(s: State, e: Step, ttl: nat, id: OpId)
    requires Enabled(s, e) && MutuallyExclusive(s) && Accounted(s, id)
    requires Apply(s, e, ttl).history.settled[id] == 1
    ensures id in Apply(s, e, ttl).rows && Terminal(Apply(s, e, ttl).rows[id].status)
    ensures forall w :: Live(Apply(s, e, ttl), w) ==> !Engaged(Apply(s, e, ttl).procs[w].phase, id)
  {
    SettledRow(s, e, ttl, id);
    forall w | Live(Apply(s, e, ttl), w)
      ensures !Engaged(Apply(s, e, ttl).procs[w].phase, id)
    {
      if By(e, w) {
        ActorDisengaged(s, e, ttl, id);
      } else {
        StepFrame(s, e, ttl, w);
        assert Engaged(s.procs[w].phase, id) ==> At(s, w, id);
      }
    }
  }

  lemma ActorDisengaged(s: State, e: Step, ttl: nat, id: OpId)
    requires Enabled(s, e) && !e.Tick? && !e.RequestCancel? && id in s.rows
    requires (s.history.settled[id] == 1 && Accounted(s, id)) || (e.Commit? && At(s, e.w, id))
    ensures ProcAfter(s, e).alive ==> !Engaged(ProcAfter(s, e).phase, id)
  {
  }

  /** Over every run in which no live lease lapses, whatever crashes, is delivered
      twice or is enqueued again: one executor per operation, and one dispatch
      more than the executors that died with a dispatch in hand. */
  lemma ExecutedOnce(now: int, steps: seq<Step>, ttl: nat, id: OpId)
    requires ttl > 0 && Run(Initial(now), steps, ttl, Leased)
    ensures MutuallyExclusive(After(Initial(now), steps, ttl, Leased))
    ensures var h := After(Initial(now), steps, ttl, Leased).history;
      h.settled[id] <= 1 && h.dispatched[id] <= 1 + h.abandoned[id]
  {
    var inv := (t: State) => Leases(t) && forall x :: Accounted(t, x);
    forall t, e | inv(t) && Enabled(t, e) && Leased(t, e)
      ensures inv(Apply(t, e, ttl))
    {
      LeasesStep(t, e, ttl);
      LeasesExclude(t);
      forall x ensures Accounted(Apply(t, e, ttl), x) { AccountedStep(t, e, ttl, x); }
    }
    RunKeeps(Initial(now), steps, ttl, Leased, inv);
    var t := After(Initial(now), steps, ttl, Leased);
    LeasesExclude(t);
    assert Accounted(t, id);
  }

  // ----- markers -----

  /** `w` is, or died, between the two commands of an enqueue or a dequeue of `id`, and
      entered that gap no earlier than the marker could have been set. */
  ghost predicate Behind(s: State, w: WorkerId, id: OpId) {
    && w in s.procs && InGap(s.procs[w].phase, id)
    && id in s.redis.markers && s.redis.markers[id] <= s.procs[w].since + MARKER_TTL
  }

  /** A live marker means the id is in the list or some process is behind it. */
  ghost predicate MarkerBacked(s: State, id: OpId) {
    && (id in s.redis.markers ==> s.redis.markers[id] <= s.now + MARKER_TTL)
    && (MarkerLive(s.redis, id, s.now) ==> id in s.redis.list || exists w :: Behind(s, w, id))
  }

  lemma BehindFrame(s: State, e: Step, ttl: nat, w: WorkerId, id: OpId)
    requires Enabled(s, e) && Behind(s, w, id) && MarkerLive(Apply(s, e, ttl).redis, id, Apply(s, e, ttl).now)
    requires !((e.Push? || e.Unmark?) && PhaseOf(s, e.w).id == id)
    requires !(e.SetMarker? && PhaseOf(s, e.w).todo[0] == id && !MarkerLive(s.redis, id, s.now))
    ensures Behind(Apply(s, e, ttl), w, id)
  {
    if !By(e, w) { StepFrame(s, e, ttl, w); }
  }

  lemma PoppedBehind(s: State, w: WorkerId, ttl: nat, id: OpId)
    requires Enabled(s, Pop(w)) && MarkerBacked(s, id) && id in s.redis.markers
    ensures id in s.redis.list ==> id in Apply(s, Pop(w), ttl).redis.list || Behind(Apply(s, Pop(w), ttl), w, id)
  {
    var list := s.redis.list;
    assert list == PopShrunk(s.redis).list + [list[|list| - 1]];
  }

  lemma BackedStep(s: State, e: Step, ttl: nat, id: OpId)
    requires Enabled(s, e) && MarkerBacked(s, id)
    ensures MarkerBacked(Apply(s, e, ttl), id)
  {
    var t := Apply(s, e, ttl);
    if MarkerLive(t.redis, id, t.now) {
      if e.SetMarker? && PhaseOf(s, e.w).todo[0] == id && !MarkerLive(s.redis, id, s.now) {
        assert Behind(t, e.w, id);
      } else if id in s.redis.list {
        if e.Pop? { PoppedBehind(s, e.w, ttl, id); }
      } else if !((e.Push? || e.Unmark?) && PhaseOf(s, e.w).id == id) {
        var w :| Behind(s, w, id);
        BehindFrame(s, e, ttl, w, id);
      }
    }
  }

  /** Over every run, with no timing assumption: a live marker without a list entry was set
      at most when some process entered a gap that it is still in, or died in. So a death
      strands an operation for no longer than the life of a marker. */
  lemma MarkersBacked(now: int, steps: seq<Step>, ttl: nat, id: OpId)
    requires Run(Initial(now), steps, ttl, Unconditional)
    ensures var t := After(Initial(now), steps, ttl, Unconditional);
      MarkerLive(t.redis, id, t.now) && id !in t.redis.list ==>
        exists w :: w in t.procs && InGap(t.procs[w].phase, id) && t.now < t.procs[w].since + MARKER_TTL
  {
    var inv := (t: State) => MarkerBacked(t, id);
    forall t, e | inv(t) && Enabled(t, e)
      ensures inv(Apply(t, e, ttl))
    {
      BackedStep(t, e, ttl, id);
    }
    RunKeeps(Initial(now), steps, ttl, Unconditional, inv);
    var t := After(Initial(now), steps, ttl, Unconditional);
    if MarkerLive(t.redis, id, t.now) && id !in t.redis.list {
      var w :| Behind(t, w, id);
      assert w in t.procs && InGap(t.procs[w].phase, id) && t.now < t.procs[w].since + MARKER_TTL;
    }
  }

  // ----- enqueue loops and reconcile passes -----

  /** The ids a process's enqueue loop has still to begin. */
  function Todo(p: Phase): seq<OpId> {
    match p
    case Enqueuing(todo) => todo
    case Pushing(_, rest) => rest
    case _ => []
  }

  ghost predicate DeadIn(s: State, w: WorkerId) { w in s.procs && !s.procs[w].alive }

  /** A process that was not yet dead in `from` is between the two commands for `id`. */
  ghost predicate FreshGap(s: State, from: State, id: OpId) {
    exists w :: w in s.procs && InGap(s.procs[w].phase, id) && !DeadIn(from, w)
  }

  /** Since `from`, `id` has come to wait in the list, was delivered, or is in the hands of
      a process that was not yet dead then. */
  ghost predicate Reached(s: State, from: State, id: OpId) {
    id in s.redis.list || from.history.delivered[id] < s.history.delivered[id] || FreshGap(s, from, id)
  }

  ghost predicate Later(s: State, from: State, id: OpId) {
    && from.history.delivered[id] <= s.history.delivered[id]
    && forall v :: DeadIn(from, v) ==> v in s.procs && s.procs[v] == from.procs[v]
  }

  lemma LaterStep(s: State, e: Step, ttl: nat, from: State, id: OpId)
    requires Enabled(s, e) && Later(s, from, id)
    ensures Later(Apply(s, e, ttl), from, id)
  {
    forall v | DeadIn(from, v) ensures v in Apply(s, e, ttl).procs && Apply(s, e, ttl).procs[v] == from.procs[v] {
      if !By(e, v) { StepFrame(s, e, ttl, v); }
    }
  }

  lemma GapStays(s: State, e: Step, ttl: nat, from: State, id: OpId)
    requires Enabled(s, e) && Later(s, from, id) && FreshGap(s, from, id)
    ensures Reached(Apply(s, e, ttl), from, id)
  {
    var t := Apply(s, e, ttl);
    var w :| w in s.procs && InGap(s.procs[w].phase, id) && !DeadIn(from, w);
    if !By(e, w) {
      StepFrame(s, e, ttl, w);
      assert w in t.procs && InGap(t.procs[w].phase, id) && !DeadIn(from, w);
    } else if e.Crash? {
      assert w in t.procs && InGap(t.procs[w].phase, id) && !DeadIn(from, w);
    } else if e.Push? {
      assert t.redis.list == [id] + s.redis.list;
    } else {
      assert e == Unmark(w) && t.history.delivered[id] == s.history.delivered[id] + 1;
    }
  }

  lemma ListStays(s: State, e: Step, ttl: nat, from: State, id: OpId)
    requires Enabled(s, e) && Later(s, from, id) && id in s.redis.list
    ensures Reached(Apply(s, e, ttl), from, id)
  {
    var t, list := Apply(s, e, ttl), s.redis.list;
    if e.Pop? {
      assert list == t.redis.list + [list[|list| - 1]];
      if list[|list| - 1] == id {
        assert e.w in t.procs && InGap(t.procs[e.w].phase, id) && !DeadIn(from, e.w);
      }
    }
  }

  lemma ReachedStays(s: State, e: Step, ttl: nat, from: State, id: OpId)
    requires Enabled(s, e) && Later(s, from, id) && Reached(s, from, id)
    ensures Reached(Apply(s, e, ttl), from, id)
  {
    LaterStep(s, e, ttl, from, id);
    if id in s.redis.list { ListStays(s, e, ttl, from, id); }
    else if FreshGap(s, from, id) { GapStays(s, e, ttl, from, id); }
  }

  /** `w` has still to begin `id`, and nothing will make it skip it. */
  ghost predicate Waiting(s: State, w: WorkerId, id: OpId) {
    w in s.procs && id in Todo(s.procs[w].phase) && !MarkerLive(s.redis, id, s.now)
  }

  lemma WaitingStep(s: State, e: Step, ttl: nat, w: WorkerId, from: State, id: OpId)
    requires Enabled(s, e) && Later(s, from, id) && Waiting(s, w, id)
    ensures Waiting(Apply(s, e, ttl), w, id) || FreshGap(Apply(s, e, ttl), from, id)
  {
    var t, todo := Apply(s, e, ttl), Todo(s.procs[w].phase);
    if !By(e, w) { StepFrame(s, e, ttl, w); }
    if e.SetMarker? && PhaseOf(s, e.w).todo[0] == id {
      assert e.w in t.procs && InGap(t.procs[e.w].phase, id) && !DeadIn(from, e.w);
    } else {
      assert forall x :: x in todo ==> x == todo[0] || x in todo[1..];
    }
  }

  ghost predicate Underway(s: State, w: WorkerId, from: State, id: OpId) {
    Later(s, from, id) && (Reached(s, from, id) || Waiting(s, w, id))
  }

  lemma UnderwayStep(s: State, e: Step, ttl: nat, w: WorkerId, from: State, id: OpId)
    requires Enabled(s, e) && Underway(s, w, from, id)
    ensures Underway(Apply(s, e, ttl), w, from, id)
  {
    LaterStep(s, e, ttl, from, id);
    if Reached(s, from, id) { ReachedStays(s, e, ttl, from, id); } else { WaitingStep(s, e, ttl, w, from, id); }
  }

  /** An enqueue loop that has `id` before it, with no live marker of an id that is missing
      from the list: when the loop is through, the id is reached, whatever other processes
      do or die of meanwhile. This holds from every state, not only the reachable ones. */
  lemma EnqueueReaches(from: State, w: WorkerId, after: seq<Step>, ttl: nat, id: OpId)
    requires w in from.procs && id in Todo(from.procs[w].phase) && Run(from, after, ttl, Unconditional)
    requires MarkerLive(from.redis, id, from.now) ==> id in from.redis.list
    requires var end := After(from, after, ttl, Unconditional); w in end.procs && Todo(end.procs[w].phase) == []
    ensures Reached(After(from, after, ttl, Unconditional), from, id)
  {
    var inv := (t: State) => Underway(t, w, from, id);
    forall t, e | inv(t) && Enabled(t, e)
      ensures inv(Apply(t, e, ttl))
    {
      UnderwayStep(t, e, ttl, w, from, id);
    }
    RunKeeps(from, after, ttl, Unconditional, inv);
  }

  /** A reconcile pass: every operation that is QUEUED when process `w` scans the table, and
      has no live marker without a list entry then, is reached once `w` is through its list. */
  lemma ReconcileReaches(scan: State, w: WorkerId, queued: seq<OpId>, after: seq<Step>, ttl: nat, id: OpId)
    requires Enabled(scan, Recover(w, queued)) && id in scan.rows && scan.rows[id].status.Queued?
    requires MarkerLive(scan.redis, id, scan.now) ==> id in scan.redis.list
    requires Run(Apply(scan, Recover(w, queued), ttl), after, ttl, Unconditional)
    requires var end := After(Apply(scan, Recover(w, queued), ttl), after, ttl, Unconditional);
      w in end.procs && Todo(end.procs[w].phase) == []
    ensures Reached(After(Apply(scan, Recover(w, queued), ttl), after, ttl, Unconditional), scan, id)
  {
    var first := Apply(scan, Recover(w, queued), ttl);
    var end := After(first, after, ttl, Unconditional);
    EnqueueReaches(first, w, after, ttl, id);
    assert forall v :: DeadIn(first, v) == DeadIn(scan, v);
  }

  /** In a run from the empty system, the condition on the marker holds as soon as no
      process entered a gap of `id` within the life of a marker: a pass begun that long
      after the last death reaches every queued operation. */
  lemma OldDeathsDoNotStrand(now: int, before: seq<Step>, ttl: nat, id: OpId)
    requires Run(Initial(now), before, ttl, Unconditional)
    requires var scan := After(Initial(now), before, ttl, Unconditional);
      forall w :: w in scan.procs && InGap(scan.procs[w].phase, id) ==> scan.procs[w].since + MARKER_TTL <= scan.now
    ensures var scan := After(Initial(now), before, ttl, Unconditional);
      MarkerLive(scan.redis, id, scan.now) ==> id in scan.redis.list
  {
    MarkersBacked(now, before, ttl, id);
  }

  // ----- a pass that nothing interrupts -----

  ghost function Alone(w: WorkerId): (State, Step) -> bool {
    (s, e) => e == SetMarker(w) || e == Push(w)
  }

  /** Whether a pass that scans in this state skips `id`. */
  predicate Stranded(s: State, id: OpId) { MarkerLive(s.redis, id, s.now) && id !in s.redis.list }

  ghost predicate PassFate(s: State, w: WorkerId, stranded: bool, id: OpId) {
    && w in s.procs
    && var p := s.procs[w].phase;
       if stranded then Stranded(s, id) && !InGap(p, id)
       else id in s.redis.list || InGap(p, id) || (id in Todo(p) && !MarkerLive(s.redis, id, s.now))
  }

  lemma PassFateStep(s: State, e: Step, ttl: nat, w: WorkerId, stranded: bool, id: OpId)
    requires Enabled(s, e) && Alone(w)(s, e) && PassFate(s, w, stranded, id) && !s.procs[w].phase.Popped?
    ensures PassFate(Apply(s, e, ttl), w, stranded, id) && !Apply(s, e, ttl).procs[w].phase.Popped?
  {
    var todo := Todo(s.procs[w].phase);
    assert todo != [] ==> forall x :: x in todo ==> x == todo[0] || x in todo[1..];
  }

  lemma PassBegins(scan: State, w: WorkerId, queued: seq<OpId>, ttl: nat, id: OpId)
    requires Enabled(scan, Recover(w, queued)) && id in scan.rows && scan.rows[id].status.Queued?
    ensures PassFate(Apply(scan, Recover(w, queued), ttl), w, Stranded(scan, id), id)
    ensures !Apply(scan, Recover(w, queued), ttl).procs[w].phase.Popped?
  {
  }

  /** A pass of which nothing else is interleaved leaves a queued operation out of the list
      exactly when its marker was live and it was not in the list at the scan. */
  lemma StrandedExactly(scan: State, w: WorkerId, queued: seq<OpId>, pass: seq<Step>, ttl: nat, id: OpId)
    requires Enabled(scan, Recover(w, queued)) && id in scan.rows && scan.rows[id].status.Queued?
    requires Run(Apply(scan, Recover(w, queued), ttl), pass, ttl, Alone(w))
    requires var end := After(Apply(scan, Recover(w, queued), ttl), pass, ttl, Alone(w));
      w in end.procs && end.procs[w].phase.Idle?
    ensures id !in After(Apply(scan, Recover(w, queued), ttl), pass, ttl, Alone(w)).redis.list <==> Stranded(scan, id)
  {
    var first, stranded := Apply(scan, Recover(w, queued), ttl), Stranded(scan, id);
    PassBegins(scan, w, queued, ttl, id);
    var inv := (t: State) => PassFate(t, w, stranded, id) && !t.procs[w].phase.Popped?;
    forall t, e | inv(t) && Enabled(t, e) && Alone(w)(t, e)
      ensures inv(Apply(t, e, ttl))
    {
      PassFateStep(t, e, ttl, w, stranded, id);
    }
    RunKeeps(first, pass, ttl, Alone(w), inv);
  }
}
