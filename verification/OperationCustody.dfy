/** Who will see to a queued operation: while nothing crashes, one is never lost. */
module OperationCustody {
  import opened Basics
  import opened OperationStore
  import opened OperationQueue
  import opened OperationProtocol
  import opened OperationSafety

  /** A process in this phase goes on to put `id` in the list, to execute it, or to end it. */
  predicate Carries(p: Phase, id: OpId) {
    || id in Todo(p) || InGap(p, id)
    || ((p.Dequeued? || p.Acquired? || p.Fetched? || p.Failing? || p.Settling?) && p.id == id)
  }

  ghost predicate CarriedBy(s: State, w: WorkerId, id: OpId) { Live(s, w) && Carries(s.procs[w].phase, id) }

  /** In the list, or in the hands of some live process. */
  ghost predicate Cared(s: State, id: OpId) { id in s.redis.list || exists w :: CarriedBy(s, w, id) }

  /** The steps by which a process lets go of an unfinished `id` for good: a death, an
      exception that is not caught, and an enqueue that a live marker stops. */
  predicate LetsGo(s: State, e: Step, id: OpId)
    requires Enabled(s, e)
  {
    || e.Crash? || e.Escape?
    || (e.SetMarker? && PhaseOf(s, e.w).todo[0] == id && id !in PhaseOf(s, e.w).todo[1..]
        && MarkerLive(s.redis, id, s.now))
  }

  ghost predicate OnlyCarrier(s: State, w: WorkerId, id: OpId) {
    id !in s.redis.list && forall v :: CarriedBy(s, v, id) ==> v == w
  }

  lemma OthersCarry(s: State, e: Step, ttl: nat, w: WorkerId, id: OpId)
    requires Enabled(s, e) && !By(e, w)
    ensures CarriedBy(Apply(s, e, ttl), w, id) == CarriedBy(s, w, id)
  {
    StepFrame(s, e, ttl, w);
  }

  lemma LoopCarries(s: State, e: Step, ttl: nat, id: OpId)
    requires Enabled(s, e) && (e.SetMarker? || e.Push?) && CarriedBy(s, e.w, id)
    ensures var t := Apply(s, e, ttl); id in t.redis.list || CarriedBy(t, e.w, id) <==>
      id in t.redis.list || !LetsGo(s, e, id)
  {
    var t, todo := Apply(s, e, ttl), Todo(s.procs[e.w].phase);
    assert t.procs[e.w] == ProcAfter(s, e);
    assert todo != [] ==> forall x :: x in todo ==> x == todo[0] || x in todo[1..];
  }

  lemma ActorCarries(s: State, e: Step, ttl: nat, id: OpId)
    requires Enabled(s, e) && !e.Tick? && !e.RequestCancel? && CarriedBy(s, e.w, id) && id in s.rows
    requires var t := Apply(s, e, ttl); id in t.rows && t.rows[id].status.Queued?
    ensures var t := Apply(s, e, ttl); id in t.redis.list || CarriedBy(t, e.w, id) <==>
      id in t.redis.list || !LetsGo(s, e, id)
  {
    if e.SetMarker? || e.Push? {
      LoopCarries(s, e, ttl, id);
    } else {
      assert Apply(s, e, ttl).procs[e.w] == ProcAfter(s, e);
    }
  }

  lemma ListKept(s: State, e: Step, ttl: nat, id: OpId)
    requires Enabled(s, e)
    ensures id in s.redis.list ==> Cared(Apply(s, e, ttl), id)
    ensures id !in s.redis.list && id in Apply(s, e, ttl).redis.list ==>
      e.Push? && PhaseOf(s, e.w).id == id
  {
    var t, list := Apply(s, e, ttl), s.redis.list;
    if e.Pop? {
      assert list == t.redis.list + [list[|list| - 1]];
      if list[|list| - 1] == id { assert CarriedBy(t, e.w, id); }
    }
  }

  /** From every state: a step leaves a queued operation that was cared for to nobody if and
      only if its only carrier lets go of it. */
  lemma LostExactly(s: State, e: Step, ttl: nat, id: OpId)
    requires Enabled(s, e) && Cared(s, id) && id in s.rows
    requires var t := Apply(s, e, ttl); id in t.rows && t.rows[id].status.Queued?
    ensures !Cared(Apply(s, e, ttl), id) <==>
      !e.Tick? && !e.RequestCancel? && OnlyCarrier(s, e.w, id) && LetsGo(s, e, id)
  {
    var t := Apply(s, e, ttl);
    ListKept(s, e, ttl, id);
    if id !in s.redis.list {
      var w :| CarriedBy(s, w, id);
      if !By(e, w) { OthersCarry(s, e, ttl, w, id); } else { ActorCarries(s, e, ttl, id); }
      forall v | CarriedBy(t, v, id) && !By(e, v) ensures CarriedBy(s, v, id) { OthersCarry(s, e, ttl, v, id); }
      forall v | CarriedBy(s, v, id) && !By(e, v) ensures CarriedBy(t, v, id) { OthersCarry(s, e, ttl, v, id); }
    }
  }

  /** No process dies and none is left by an exception. */
  ghost predicate Undisturbed(s: State, e: Step) { !e.Crash? && !e.Escape? }

  ghost predicate InCustody(s: State, id: OpId) {
    && MarkerBacked(s, id)
    && (forall w :: w in s.procs && InGap(s.procs[w].phase, id) ==> s.procs[w].alive)
    && (id in s.rows && s.rows[id].status.Queued? ==> Cared(s, id))
  }

  lemma CustodyStep(s: State, e: Step, ttl: nat, id: OpId)
    requires Enabled(s, e) && InCustody(s, id) && Undisturbed(s, e)
    ensures InCustody(Apply(s, e, ttl), id)
  {
    var t := Apply(s, e, ttl);
    BackedStep(s, e, ttl, id);
    forall w | w in t.procs && InGap(t.procs[w].phase, id) ensures t.procs[w].alive {
      if !By(e, w) { StepFrame(s, e, ttl, w); }
    }
    if id in t.rows && t.rows[id].status.Queued? {
      if id !in s.rows {
        assert CarriedBy(t, e.w, id);
      } else {
        LostExactly(s, e, ttl, id);
        if e.SetMarker? && MarkerLive(s.redis, id, s.now) && id !in s.redis.list {
          var v :| Behind(s, v, id);
          assert CarriedBy(s, v, id);
        }
      }
    }
  }

  /** In every run in which no process dies, every QUEUED operation is in the list or in the
      hands of a live process that goes on to put it there, execute it or end it; in
      particular the one just created, and the copy whose lock was taken. */
  lemma NoneLost(now: int, steps: seq<Step>, ttl: nat, id: OpId)
    requires Run(Initial(now), steps, ttl, Undisturbed)
    ensures var t := After(Initial(now), steps, ttl, Undisturbed);
      id in t.rows && t.rows[id].status.Queued? ==> Cared(t, id)
  {
    var inv := (t: State) => InCustody(t, id);
    forall t, e | inv(t) && Enabled(t, e) && Undisturbed(t, e)
      ensures inv(Apply(t, e, ttl))
    {
      CustodyStep(t, e, ttl, id);
    }
    RunKeeps(Initial(now), steps, ttl, Undisturbed, inv);
  }

  /** A copy whose lock is taken goes back: once its worker is through, the id has been reached
      again, whatever others do meanwhile, unless its marker was live without a list entry. */
  lemma TakenLockReturns(s: State, w: WorkerId, after: seq<Step>, ttl: nat, id: OpId)
    requires Live(s, w) && s.procs[w].phase == Dequeued(id) && LockLive(s.redis, id, s.now)
    requires MarkerLive(s.redis, id, s.now) ==> id in s.redis.list
    requires Run(Apply(s, TryLock(w), ttl), after, ttl, Unconditional)
    requires var end := After(Apply(s, TryLock(w), ttl), after, ttl, Unconditional);
      w in end.procs && Todo(end.procs[w].phase) == []
    ensures Reached(After(Apply(s, TryLock(w), ttl), after, ttl, Unconditional), s, id)
  {
    var first := Apply(s, TryLock(w), ttl);
    EnqueueReaches(first, w, after, ttl, id);
    assert forall v :: DeadIn(first, v) == DeadIn(s, v);
  }

  /** What each step adds to the bookkeeping. */
  lemma HistoryIsExact(s: State, e: Step, ttl: nat, id: OpId)
    requires Enabled(s, e)
    ensures var h, h' := s.history, Apply(s, e, ttl).history;
      && h'.delivered[id] == h.delivered[id] + (if e.Unmark? && PhaseOf(s, e.w) == Popped(id) then 1 else 0)
      && h'.dispatched[id] == h.dispatched[id] + (if e.Dispatch? && PhaseOf(s, e.w).id == id then 1 else 0)
      && h'.settled[id] == h.settled[id]
           + (if e.Commit? && PhaseOf(s, e.w).id == id && PhaseOf(s, e.w).pending then 1 else 0)
      && h'.abandoned[id] == h.abandoned[id]
           + (if DropsDispatch(s, e) && PhaseOf(s, e.w).id == id then 1 else 0)
  {
  }
}
