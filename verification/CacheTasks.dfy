/**
 The cache under interleaved tasks. Each Redis command is a step of its own, so other
 tasks, invalidations and the fail-over can fall between the two commands of a generation
 lookup and between the lookup and the slot. An epoch is the time between two invalidations.
 */
module CacheTasks {
  import opened Basics
  import opened CatalogCache

  type TaskId = nat

  /** What a task is for. */
  datatype Want = Read(key: string) | Write(key: string, item: Item)

  /** Where and when a generation was read; the time is that of the GET. */
  datatype Tag = Tag(via: Backend, generation: int, epoch: nat)

  datatype Task =
    | Repairing(want: Want, seen: Generation, epoch: nat) // GET found no number, SET not yet sent
    | Holding(want: Want, tag: Tag)                       // the generation is known

  /** Two kinds of bookkeeping no step reads: the tag of every write, by store and slot,
      and the epoch in which each generation was first read. */
  datatype System = System(
    cache: Cache,
    tasks: map<TaskId, Task>,
    epoch: nat,
    tags: map<(Backend, Slot), Tag>,
    known: map<(Backend, int), nat>)

  datatype Step =
    | Begin(t: TaskId, want: Want, o: Outcome)   // GET of the generation
    | Repair(t: TaskId, o: Outcome)              // SET of the generation
    | FinishGet(t: TaskId, now: int, o: Outcome)
    | FinishSet(t: TaskId, now: int, o: Outcome)
    | Bump(o: Outcome)                           // invalidate_all
    | Drop(slots: set<Slot>)                     // Redis evicts entries

  predicate Enabled(s: System, e: Step) {
    !s.cache.backend.Disabled? &&
    match e
    case Begin(t, _, _) => t !in s.tasks
    case Repair(t, _) => t in s.tasks && s.tasks[t].Repairing?
    case FinishGet(t, _, _) => t in s.tasks && s.tasks[t].Holding? && s.tasks[t].want.Read?
    case FinishSet(t, _, _) => t in s.tasks && s.tasks[t].Holding? && s.tasks[t].want.Write?
    case _ => true
  }

  function SlotOf(task: Task): Slot
    requires task.Holding?
  {
    (task.tag.generation, task.want.key)
  }

  /** The task after its GET. */
  function Begun(c: Cache, epoch: nat, want: Want, o: Outcome): Task {
    if !c.backend.Remote? || !o.Works? then Holding(want, Tag(Memory, c.generation, epoch))
    else if c.redis.generation.Number? then Holding(want, Tag(Remote, c.redis.generation.n, epoch))
    else Repairing(want, c.redis.generation, epoch)
  }

  /** The task after its SET. */
  function RepairedTask(s: System, task: Task, o: Outcome): Task
    requires task.Repairing?
  {
    var (d, g) := Repaired(s.cache, task.seen, o);
    Holding(task.want, Tag(d.backend, g, if d.backend.Remote? then task.epoch else s.epoch))
  }

  function CacheAfter(s: System, e: Step): Cache
    requires Enabled(s, e)
  {
    match e
    case Begin(_, _, o) => if s.cache.backend.Remote? && !o.Works? then Degraded(s.cache) else s.cache
    case Repair(t, o) => Repaired(s.cache, s.tasks[t].seen, o).0
    case FinishGet(t, now, o) => ReadSlot(s.cache, SlotOf(s.tasks[t]), now, o).0
    case FinishSet(t, now, o) => WriteSlot(s.cache, SlotOf(s.tasks[t]), s.tasks[t].want.item, now, o)
    case Bump(o) => Invalidated(s.cache, o)
    case Drop(slots) => s.cache.(redis := s.cache.redis.(entries := s.cache.redis.entries - slots))
  }

  /** A `set` whose Redis write fails goes on to write the same slot in memory. */
  function TasksAfter(s: System, e: Step): map<TaskId, Task>
    requires Enabled(s, e)
  {
    match e
    case Begin(t, want, o) => s.tasks[t := Begun(s.cache, s.epoch, want, o)]
    case Repair(t, o) => s.tasks[t := RepairedTask(s, s.tasks[t], o)]
    case FinishGet(t, _, _) => s.tasks - {t}
    case FinishSet(t, _, o) => if s.cache.backend.Memory? || o.Works? then s.tasks - {t} else s.tasks
    case _ => s.tasks
  }

  function KnownAfter(s: System, e: Step): map<(Backend, int), nat>
    requires Enabled(s, e)
  {
    if e.Begin? || e.Repair? then
      var task := TasksAfter(s, e)[e.t];
      if task.Holding? then s.known[(task.tag.via, task.tag.generation) := task.tag.epoch] else s.known
    else s.known
  }

  function Apply(s: System, e: Step): System
    requires Enabled(s, e)
  {
    System(
      CacheAfter(s, e),
      TasksAfter(s, e),
      if e.Bump? then s.epoch + 1 else s.epoch,
      if e.FinishSet? then s.tags[(s.cache.backend, SlotOf(s.tasks[e.t])) := s.tasks[e.t].tag] else s.tags,
      KnownAfter(s, e))
  }

  /** The value `FinishGet` returns. */
  function Hit(s: System, e: Step): Option<Value>
    requires Enabled(s, e) && e.FinishGet?
  {
    ReadSlot(s.cache, SlotOf(s.tasks[e.t]), e.now, e.o).1
  }

  ghost predicate Tagged(s: System) {
    && (forall k :: k in s.cache.memory ==> (Memory, k) in s.tags && s.tags[(Memory, k)].generation == k.0)
    && (forall k :: k in s.cache.redis.entries ==> (Remote, k) in s.tags && s.tags[(Remote, k)].generation == k.0)
  }

  /** The tag of the entry that `FinishGet` hits. */
  ghost function Source(s: System, e: Step): Tag
    requires Enabled(s, e) && e.FinishGet? && Tagged(s) && Hit(s, e).Some?
  {
    s.tags[(s.cache.backend, SlotOf(s.tasks[e.t]))]
  }

  /** No invalidation reaches an absent generation key while a task has been told that it
      is absent and has not yet answered by setting it. */
  ghost predicate Undisturbed(s: System, e: Step) {
    e.Bump? && e.o.Works? && s.cache.backend.Remote? && s.cache.redis.generation.Absent? ==>
      forall t :: t in s.tasks ==> !s.tasks[t].Repairing?
  }

  // ----- a task that nothing interrupts -----

  /** A lookup on its own: GET, and SET if there was no number. */
  ghost function LookedUp(s: System, t: TaskId, want: Want, o: Outcomes): System
    requires Enabled(s, Begin(t, want, o.get))
  {
    var u := Apply(s, Begin(t, want, o.get));
    if u.tasks[t].Repairing? then Apply(u, Repair(t, o.set_)) else u
  }

  lemma LookupAlone(s: System, t: TaskId, want: Want, o: Outcomes)
    requires Enabled(s, Begin(t, want, o.get))
    ensures var u := LookedUp(s, t, want, o);
      var (c, g) := Lookup(s.cache, o);
      && u.cache == c && t in u.tasks && u.tasks[t].Holding? && u.tasks[t].want == want
      && u.tasks[t].tag.generation == g && u.tasks - {t} == s.tasks
  {
  }

  /** A get that nothing interrupts is the whole call. */
  lemma GetAlone(s: System, t: TaskId, key: string, now: int, o: Outcomes, read: Outcome)
    requires Enabled(s, Begin(t, Read(key), o.get))
    ensures var u := LookedUp(s, t, Read(key), o);
      && Enabled(u, FinishGet(t, now, read))
      && (Apply(u, FinishGet(t, now, read)).cache, Hit(u, FinishGet(t, now, read)))
         == Fetched(s.cache, key, now, o, read)
      && Apply(u, FinishGet(t, now, read)).tasks == s.tasks
  {
    LookupAlone(s, t, Read(key), o);
  }

  /** So is a set; if its Redis write fails it goes on to memory. */
  lemma SetAlone(s: System, t: TaskId, key: string, item: Item, now: int, o: Outcomes, write: Outcome)
    requires Enabled(s, Begin(t, Write(key, item), o.get))
    ensures var u := LookedUp(s, t, Write(key, item), o);
      var e := FinishSet(t, now, write);
      && Enabled(u, e)
      && var v := Apply(u, e);
         && (t in v.tasks <==> u.cache.backend.Remote? && !write.Works?)
         && (t in v.tasks ==> Enabled(v, e))
         && var w := if t in v.tasks then Apply(v, e) else v;
            w.cache == Stored(s.cache, key, item, now, o, write) && w.tasks == s.tasks
  {
    LookupAlone(s, t, Write(key, item), o);
  }

  // ----- a generation number belongs to one epoch on each side of the fail-over -----

  function GenerationOn(c: Cache, b: Backend): int {
    if b.Remote? then CurrentGeneration(c.redis.generation) else c.generation
  }

  ghost predicate KnownTag(s: System, tag: Tag) {
    && (tag.via, tag.generation) in s.known && s.known[(tag.via, tag.generation)] == tag.epoch
    && tag.epoch <= s.epoch
  }

  ghost predicate KnownOk(s: System) {
    && (forall k :: k in s.known ==>
      !k.0.Disabled? && k.1 <= GenerationOn(s.cache, k.0) && s.known[k] <= s.epoch)
    && (forall k :: k in s.known && k.0 == s.cache.backend && k.1 == GenerationOn(s.cache, k.0) ==>
      s.known[k] == s.epoch)
    && (s.cache.backend.Remote? ==>
          && !s.cache.redis.generation.Garbage?
          && CurrentGeneration(s.cache.redis.generation) >= 1
          && (forall k :: k in s.known ==> !k.0.Memory?)
          && (s.cache.redis.generation.Absent? ==> s.known == map[]))
  }

  /** A task that was told the key is absent, while Redis is in use: the key still is and no
      invalidation has come since, or some task has read generation 1 in the same epoch. */
  ghost predicate RepairOk(s: System, task: Task)
    requires task.Repairing?
  {
    s.cache.backend.Remote? ==>
      && task.seen.Absent? && task.epoch <= s.epoch
      && if s.cache.redis.generation.Absent? then task.epoch == s.epoch
         else (Remote, 1) in s.known && s.known[(Remote, 1)] == task.epoch
  }

  ghost predicate TaskOk(s: System, task: Task) {
    if task.Repairing? then RepairOk(s, task) else KnownTag(s, task.tag)
  }

  /** While Redis is in use nothing is written to memory. */
  ghost predicate MemoryUnused(s: System) {
    s.cache.backend.Remote? ==> s.cache.memory == map[] && forall k :: k in s.tags ==> k.0.Remote?
  }

  ghost predicate Inv(s: System) {
    && Tagged(s) && KnownOk(s) && MemoryUnused(s)
    && (forall t :: t in s.tasks ==> TaskOk(s, s.tasks[t]))
    && (forall k :: k in s.tags ==> KnownTag(s, s.tags[k]))
  }

  /** Only a finishing `set` adds an entry, at its own slot of the store then in use. */
  lemma EntriesStep(s: System, e: Step, k: Slot)
    requires Enabled(s, e)
    ensures k in CacheAfter(s, e).memory ==>
      k in s.cache.memory || (e.FinishSet? && s.cache.backend.Memory? && k == SlotOf(s.tasks[e.t]))
    ensures k in CacheAfter(s, e).redis.entries ==>
      k in s.cache.redis.entries || (e.FinishSet? && s.cache.backend.Remote? && k == SlotOf(s.tasks[e.t]))
  {
  }

  lemma TaggedStep(s: System, e: Step)
    requires Tagged(s) && Enabled(s, e)
    ensures Tagged(Apply(s, e))
  {
    var t := Apply(s, e);
    forall k | k in t.cache.memory ensures (Memory, k) in t.tags && t.tags[(Memory, k)].generation == k.0 {
      EntriesStep(s, e, k);
    }
    forall k | k in t.cache.redis.entries ensures (Remote, k) in t.tags && t.tags[(Remote, k)].generation == k.0 {
      EntriesStep(s, e, k);
    }
  }

  /** What a step reads of the generation is known, and of the epoch it should be. */
  lemma BeginOk(s: System, e: Step)
    requires KnownOk(s) && Enabled(s, e) && e.Begin?
    ensures KnownOk(Apply(s, e)) && TaskOk(Apply(s, e), Apply(s, e).tasks[e.t])
  {
  }

  lemma RepairKnown(s: System, e: Step)
    requires KnownOk(s) && Enabled(s, e) && e.Repair? && RepairOk(s, s.tasks[e.t])
    ensures KnownOk(Apply(s, e))
  {
  }

  lemma RepairDone(s: System, e: Step)
    requires KnownOk(s) && Enabled(s, e) && e.Repair? && RepairOk(s, s.tasks[e.t])
    ensures KnownOk(Apply(s, e)) && TaskOk(Apply(s, e), Apply(s, e).tasks[e.t])
  {
    RepairKnown(s, e);
  }

  lemma BumpKnown(s: System, e: Step)
    requires KnownOk(s) && Enabled(s, e) && e.Bump?
    ensures KnownOk(Apply(s, e))
  {
  }

  lemma OtherKnown(s: System, e: Step)
    requires KnownOk(s) && Enabled(s, e) && !e.Begin? && !e.Repair? && !e.Bump?
    ensures KnownOk(Apply(s, e))
  {
  }

  lemma KnownStep(s: System, e: Step)
    requires KnownOk(s) && Enabled(s, e) && (e.Repair? ==> RepairOk(s, s.tasks[e.t]))
    ensures KnownOk(Apply(s, e))
    ensures e.Begin? || e.Repair? ==> TaskOk(Apply(s, e), Apply(s, e).tasks[e.t])
  {
    if e.Begin? { BeginOk(s, e); }
    else if e.Repair? { RepairDone(s, e); }
    else if e.Bump? { BumpKnown(s, e); }
    else { OtherKnown(s, e); }
  }

  /** Reading adds to what is known, and changes nothing of it. */
  lemma KnownGrows(s: System, e: Step, k: (Backend, int))
    requires KnownOk(s) && Enabled(s, e) && k in s.known
    requires e.Repair? ==> RepairOk(s, s.tasks[e.t])
    ensures k in Apply(s, e).known && Apply(s, e).known[k] == s.known[k]
  {
  }

  lemma RepairStays(s: System, e: Step, task: Task)
    requires KnownOk(s) && Enabled(s, e) && Undisturbed(s, e) && task.Repairing? && RepairOk(s, task)
    requires e.Bump? ==> exists t :: t in s.tasks && s.tasks[t] == task
    requires e.Repair? ==> RepairOk(s, s.tasks[e.t])
    ensures RepairOk(Apply(s, e), task)
  {
    if (Remote, 1) in s.known { KnownGrows(s, e, (Remote, 1)); }
  }

  lemma TagStays(s: System, e: Step, tag: Tag)
    requires KnownOk(s) && Enabled(s, e) && KnownTag(s, tag)
    requires e.Repair? ==> RepairOk(s, s.tasks[e.t])
    ensures KnownTag(Apply(s, e), tag)
  {
    KnownGrows(s, e, (tag.via, tag.generation));
  }

  lemma TasksOkStep(s: System, e: Step, x: TaskId)
    requires Inv(s) && Enabled(s, e) && Undisturbed(s, e) && x in Apply(s, e).tasks
    ensures TaskOk(Apply(s, e), Apply(s, e).tasks[x])
  {
    if (e.Begin? || e.Repair?) && x == e.t {
      assert e.Repair? ==> TaskOk(s, s.tasks[e.t]);
      KnownStep(s, e);
    } else {
      var task := s.tasks[x];
      assert TaskOk(s, task) && (e.Repair? ==> TaskOk(s, s.tasks[e.t]));
      if task.Repairing? { RepairStays(s, e, task); } else { TagStays(s, e, task.tag); }
    }
  }

  lemma MemoryUnusedStep(s: System, e: Step)
    requires MemoryUnused(s) && Enabled(s, e)
    ensures MemoryUnused(Apply(s, e))
  {
  }

  lemma InvStep(s: System, e: Step)
    requires Inv(s) && Enabled(s, e) && Undisturbed(s, e)
    ensures Inv(Apply(s, e))
  {
    var t := Apply(s, e);
    TaggedStep(s, e);
    MemoryUnusedStep(s, e);
    assert e.Repair? ==> TaskOk(s, s.tasks[e.t]);
    KnownStep(s, e);
    forall x | x in t.tasks ensures TaskOk(t, t.tasks[x]) { TasksOkStep(s, e, x); }
    forall k | k in t.tags ensures KnownTag(t, t.tags[k]) {
      if e.FinishSet? { TagStays(s, e, s.tasks[e.t].tag); }
      if k in s.tags { TagStays(s, e, s.tags[k]); }
    }
  }

  // ----- runs -----

  /** A cache with nothing stored, and a generation key that is absent or counts from 1. */
  ghost predicate Starts(c: Cache) { Fresh(c) && CurrentGeneration(c.redis.generation) >= 1 }

  function Start(c: Cache): System { System(c, map[], 0, map[], map[]) }

  ghost predicate Run(s: System, steps: seq<Step>, assumed: (System, Step) -> bool)
    decreases |steps|
  {
    steps != [] ==> Enabled(s, steps[0]) && assumed(s, steps[0]) && Run(Apply(s, steps[0]), steps[1..], assumed)
  }

  ghost function End(s: System, steps: seq<Step>, assumed: (System, Step) -> bool): System
    requires Run(s, steps, assumed)
    decreases |steps|
  {
    if steps == [] then s else End(Apply(s, steps[0]), steps[1..], assumed)
  }

  lemma {:induction false} RunInv(s: System, steps: seq<Step>, assumed: (System, Step) -> bool)
    requires Inv(s) && Run(s, steps, assumed)
    requires forall t, e :: assumed(t, e) ==> Undisturbed(t, e)
    ensures Inv(End(s, steps, assumed))
    decreases |steps|
  {
    if steps != [] {
      InvStep(s, steps[0]);
      RunInv(Apply(s, steps[0]), steps[1..], assumed);
    }
  }

  /** In every undisturbed interleaving, a hit whose `get` and `set` read the generation on
      the same side of the fail-over read it in the same epoch: no late write from before an
      invalidation is observed after it. */
  lemma HitIsOfThisEpoch(c: Cache, steps: seq<Step>, assumed: (System, Step) -> bool, e: Step)
    requires Starts(c) && Run(Start(c), steps, assumed) && forall t, e :: assumed(t, e) ==> Undisturbed(t, e)
    requires var s := End(Start(c), steps, assumed); Enabled(s, e) && e.FinishGet? && Hit(s, e).Some?
    ensures var s := End(Start(c), steps, assumed);
      && Tagged(s)
      && var tag := s.tasks[e.t].tag;
         Source(s, e).via == tag.via ==> Source(s, e).epoch == tag.epoch
  {
    RunInv(Start(c), steps, assumed);
    var s := End(Start(c), steps, assumed);
    assert TaskOk(s, s.tasks[e.t]) && KnownTag(s, Source(s, e));
  }

  ghost predicate Anything(s: System, e: Step) { true }

  /** With a generation key that is present, or without Redis, every interleaving is
      undisturbed. */
  lemma {:induction false} PresentKeyRuns(s: System, steps: seq<Step>)
    requires s.cache.backend.Remote? ==> s.cache.redis.generation.Number?
    requires Run(s, steps, Anything)
    ensures Run(s, steps, Undisturbed) && End(s, steps, Undisturbed) == End(s, steps, Anything)
    decreases |steps|
  {
    if steps != [] {
      PresentKeyRuns(Apply(s, steps[0]), steps[1..]);
    }
  }

  /** So then the statement holds of every interleaving whatever. */
  lemma PresentKeyHits(c: Cache, steps: seq<Step>, e: Step)
    requires Starts(c) && (c.backend.Remote? ==> c.redis.generation.Number?) && Run(Start(c), steps, Anything)
    requires var s := End(Start(c), steps, Anything); Enabled(s, e) && e.FinishGet? && Hit(s, e).Some?
    ensures var s := End(Start(c), steps, Anything);
      && Tagged(s)
      && var tag := s.tasks[e.t].tag;
         Source(s, e).via == tag.via ==> Source(s, e).epoch == tag.epoch
  {
    PresentKeyRuns(Start(c), steps);
    HitIsOfThisEpoch(c, steps, Undisturbed, e);
  }

  // ----- the absent key: the guard is exact -----

  /** A finishing `get` that returns the entry of another epoch read on the same backend. */
  ghost predicate Mismatch(s: System, e: Step) {
    && Enabled(s, e) && e.FinishGet? && Hit(s, e).Some? && Tagged(s)
    && Source(s, e).via == s.tasks[e.t].tag.via && Source(s, e).epoch != s.tasks[e.t].tag.epoch
  }

  /** Some continuation by itself undisturbed ends in a mismatch. */
  ghost predicate CanMismatch(s: System) {
    exists steps, e :: Run(s, steps, Undisturbed) && Mismatch(End(s, steps, Undisturbed), e)
  }

  lemma RunPrepends(s: System, e: Step, steps: seq<Step>, assumed: (System, Step) -> bool)
    requires Enabled(s, e) && assumed(s, e) && Run(Apply(s, e), steps, assumed)
    ensures Run(s, [e] + steps, assumed)
    ensures End(s, [e] + steps, assumed) == End(Apply(s, e), steps, assumed)
  {
    assert ([e] + steps)[1..] == steps;
  }

  lemma StepOn(s: System, e: Step)
    requires Enabled(s, e) && Undisturbed(s, e) && CanMismatch(Apply(s, e))
    ensures CanMismatch(s)
  {
    var steps, f :| Run(Apply(s, e), steps, Undisturbed) && Mismatch(End(Apply(s, e), steps, Undisturbed), f);
    RunPrepends(s, e, steps, Undisturbed);
  }

  lemma MismatchNow(s: System, e: Step)
    requires Mismatch(s, e)
    ensures CanMismatch(s)
  {
    assert Run(s, [], Undisturbed) && End(s, [], Undisturbed) == s;
  }

  /** An entry and a `get` that disagree about the epoch of generation 1. */
  lemma HitsOther(s: System, t: TaskId, item: Item)
    requires Tagged(s) && s.cache.backend.Remote? && t in s.tasks && s.tasks[t].Holding? && s.tasks[t].want.Read?
    requires s.tasks[t].tag.via.Remote? && s.tasks[t].tag.generation == 1
    requires var slot := (1, s.tasks[t].want.key);
      && slot in s.cache.redis.entries && s.cache.redis.entries[slot] == item
      && s.tags[(Remote, slot)].via.Remote? && s.tags[(Remote, slot)].epoch != s.tasks[t].tag.epoch
    ensures CanMismatch(s)
  {
    MismatchNow(s, FinishGet(t, item.expires - 1, Works));
  }

  /** A `set` that was told the key is absent writes under generation 1 of the new epoch. */
  lemma LateSet(s: System, t: TaskId, u: TaskId)
    requires Tagged(s) && s.cache.backend.Remote? && s.cache.redis.generation == Number(1)
    requires t in s.tasks && s.tasks[t].Repairing? && s.tasks[t].seen.Absent? && s.tasks[t].want.Write?
    requires s.tasks[t].epoch != s.epoch && u !in s.tasks
    ensures CanMismatch(s)
  {
    var key, item := s.tasks[t].want.key, s.tasks[t].want.item;
    var a := Apply(s, Repair(t, Works));
    assert a.cache == s.cache && a.tasks[t] == Holding(Write(key, item), Tag(Remote, 1, s.tasks[t].epoch));
    TaggedStep(s, Repair(t, Works));
    var b := Apply(a, FinishSet(t, 0, Works));
    TaggedStep(a, FinishSet(t, 0, Works));
    assert b.cache.redis.entries[(1, key)] == item && b.tags[(Remote, (1, key))] == a.tasks[t].tag;
    var d := Apply(b, Begin(u, Read(key), Works));
    TaggedStep(b, Begin(u, Read(key), Works));
    HitsOther(d, u, item);
    StepOn(b, Begin(u, Read(key), Works));
    StepOn(a, FinishSet(t, 0, Works));
    StepOn(s, Repair(t, Works));
  }

  /** A `get` that was told so reads under generation 1 what was written in the new epoch. */
  lemma LateGet(s: System, t: TaskId, u: TaskId, item: Item)
    requires Tagged(s) && s.cache.backend.Remote? && s.cache.redis.generation == Number(1)
    requires t in s.tasks && s.tasks[t].Repairing? && s.tasks[t].seen.Absent? && s.tasks[t].want.Read?
    requires s.tasks[t].epoch != s.epoch && u !in s.tasks
    ensures CanMismatch(s)
  {
    var key := s.tasks[t].want.key;
    var a := Apply(s, Begin(u, Write(key, item), Works));
    assert a.cache == s.cache && a.tasks[u] == Holding(Write(key, item), Tag(Remote, 1, s.epoch));
    TaggedStep(s, Begin(u, Write(key, item), Works));
    var b := Apply(a, FinishSet(u, 0, Works));
    TaggedStep(a, FinishSet(u, 0, Works));
    assert b.cache.redis.entries[(1, key)] == item && b.tags[(Remote, (1, key))] == a.tasks[u].tag;
    var d := Apply(b, Repair(t, Works));
    TaggedStep(b, Repair(t, Works));
    HitsOther(d, t, item);
    StepOn(b, Repair(t, Works));
    StepOn(a, FinishSet(u, 0, Works));
    StepOn(s, Begin(u, Write(key, item), Works));
  }

  lemma FreshTask(tasks: set<TaskId>) returns (u: TaskId)
    ensures u !in tasks
    ensures forall t :: t in tasks ==> t < u
    decreases |tasks|
  {
    if tasks == {} {
      u := 0;
    } else {
      assert (forall t :: t !in tasks) ==> tasks == {};
      var t :| t in tasks;
      var v := FreshTask(tasks - {t});
      u := if t < v then v else t + 1;
      assert forall x :: x in tasks ==> x == t || x in tasks - {t};
    }
  }

  /** The guard is exact: after a step, undisturbed continuations can end in a mismatch if
      and only if the step was a disturbing one. */
  lemma UndisturbedExactly(s: System, e: Step)
    requires Inv(s) && Enabled(s, e)
    ensures Undisturbed(s, e) <==> !CanMismatch(Apply(s, e))
  {
    var a := Apply(s, e);
    if Undisturbed(s, e) {
      InvStep(s, e);
      forall steps, f | Run(a, steps, Undisturbed) ensures !Mismatch(End(a, steps, Undisturbed), f) {
        RunInv(a, steps, Undisturbed);
        NoMismatch(End(a, steps, Undisturbed), f);
      }
    } else {
      var t :| t in s.tasks && s.tasks[t].Repairing?;
      assert TaskOk(s, s.tasks[t]);
      TaggedStep(s, e);
      var u := FreshTask(a.tasks.Keys);
      if s.tasks[t].want.Write? { LateSet(a, t, u); } else { LateGet(a, t, u, Item(1, "v")); }
    }
  }

  lemma NoMismatch(s: System, e: Step)
    requires Inv(s)
    ensures !Mismatch(s, e)
  {
    if Enabled(s, e) && e.FinishGet? && Hit(s, e).Some? {
      assert TaskOk(s, s.tasks[e.t]) && KnownTag(s, Source(s, e));
    }
  }

  const FIRST_USE := Cache(Remote, 1, map[], RedisCache(Absent, map[]))

  /** The first use of a new Redis: a `set` is told that there is no generation, and an
      invalidation comes before it sets one. */
  lemma FirstUseIsDisturbed(key: string, item: Item) returns (s: System)
    ensures Starts(FIRST_USE) && Reachable(FIRST_USE, s)
    ensures s.tasks == map[1 := Repairing(Write(key, item), Absent, 0)]
    ensures Enabled(s, Bump(Works)) && CanMismatch(Apply(s, Bump(Works)))
  {
    s := Start(FIRST_USE);
    assert Run(s, [], Anything) && End(s, [], Anything) == s;
    s := Next(FIRST_USE, s, Begin(1, Write(key, item), Works));
    InvStep(Start(FIRST_USE), Begin(1, Write(key, item), Works));
    assert s.tasks[1].Repairing?;
    UndisturbedExactly(s, Bump(Works));
  }

  // ----- the fail-over -----

  /** A generation read from Redis that memory has counted past, or reads in the same epoch. */
  ghost predicate Past(s: System, tag: Tag) {
    tag.via.Remote? ==>
      tag.generation < s.cache.generation || (tag.generation == s.cache.generation && tag.epoch == s.epoch)
  }

  ghost predicate AllPast(s: System) {
    forall t :: t in s.tasks && s.tasks[t].Holding? ==> Past(s, s.tasks[t].tag)
  }

  predicate FailsOver(s: System, e: Step)
    requires Enabled(s, e)
  {
    s.cache.backend.Remote? && CacheAfter(s, e).backend.Memory?
  }

  /** A fail-over leaves no task behind whose generation memory can still come to use in
      another epoch. */
  ghost predicate Harmless(s: System, e: Step) { Enabled(s, e) && FailsOver(s, e) ==> AllPast(Apply(s, e)) }

  /** A finishing `get` that returns the entry of another epoch, wherever it was read. */
  ghost predicate Crossing(s: System, e: Step) {
    && Enabled(s, e) && e.FinishGet? && Hit(s, e).Some? && Tagged(s)
    && Source(s, e).epoch != s.tasks[e.t].tag.epoch
  }

  /** Some continuation, of whatever steps, ends in such a hit. */
  ghost predicate CanCross(s: System) {
    exists steps, e :: Run(s, steps, Anything) && Crossing(End(s, steps, Anything), e)
  }

  /** A tag is past, and if memory has used its number, then in the tag's epoch. */
  ghost predicate Agrees(s: System, tag: Tag) {
    && Past(s, tag)
    && (tag.via.Remote? && (Memory, tag.generation) in s.known ==> s.known[(Memory, tag.generation)] == tag.epoch)
  }

  /** Memory is in use, and every tag that can still matter agrees with it. */
  ghost predicate Settled(s: System) {
    && s.cache.backend.Memory?
    && (forall t :: t in s.tasks && s.tasks[t].Holding? ==> Agrees(s, s.tasks[t].tag))
    && (forall k :: k in s.tags && k.0.Memory? ==> Agrees(s, s.tags[k]))
  }

  /** Agreement lasts: what memory reads from now on is its own number in the current epoch. */
  lemma AgreesStep(s: System, e: Step, tag: Tag)
    requires Enabled(s, e) && s.cache.backend.Memory? && Agrees(s, tag)
    ensures Agrees(Apply(s, e), tag)
  {
  }

  lemma SettledStep(s: System, e: Step)
    requires Settled(s) && Enabled(s, e)
    ensures Settled(Apply(s, e))
  {
    var a := Apply(s, e);
    forall t | t in a.tasks && a.tasks[t].Holding? ensures Agrees(a, a.tasks[t].tag) {
      if t in s.tasks && s.tasks[t].Holding? && !(e.Begin? && t == e.t) { AgreesStep(s, e, s.tasks[t].tag); }
    }
    forall k | k in a.tags && k.0.Memory? ensures Agrees(a, a.tags[k]) {
      if e.FinishSet? { AgreesStep(s, e, s.tasks[e.t].tag); }
      if k in s.tags { AgreesStep(s, e, s.tags[k]); }
    }
  }

  /** A harmless fail-over leaves memory settled. */
  lemma FailOverSettles(s: System, e: Step)
    requires Inv(s) && Enabled(s, e) && FailsOver(s, e) && AllPast(Apply(s, e))
    ensures Settled(Apply(s, e))
  {
    var a := Apply(s, e);
    forall t | t in a.tasks && a.tasks[t].Holding? ensures Agrees(a, a.tasks[t].tag) {
      FirstUseOfMemory(s, e, a.tasks[t].tag);
    }
  }

  lemma FirstUseOfMemory(s: System, e: Step, tag: Tag)
    requires KnownOk(s) && Enabled(s, e) && FailsOver(s, e) && Past(Apply(s, e), tag)
    ensures Agrees(Apply(s, e), tag)
  {
  }

  lemma SettledDoesNotCross(s: System, e: Step)
    requires Inv(s) && Settled(s)
    ensures !Crossing(s, e)
  {
    if Enabled(s, e) && e.FinishGet? && Hit(s, e).Some? {
      var tag, source := s.tasks[e.t].tag, Source(s, e);
      assert TaskOk(s, s.tasks[e.t]) && KnownTag(s, tag) && KnownTag(s, source);
      assert Agrees(s, tag) && Agrees(s, source) && source.generation == tag.generation;
    }
  }

  lemma {:induction false} SettledRun(s: System, steps: seq<Step>)
    requires Inv(s) && Settled(s) && Run(s, steps, Anything)
    ensures Inv(End(s, steps, Anything)) && Settled(End(s, steps, Anything))
    decreases |steps|
  {
    if steps != [] {
      InvStep(s, steps[0]);
      SettledStep(s, steps[0]);
      SettledRun(Apply(s, steps[0]), steps[1..]);
    }
  }

  lemma CrossLater(s: System, e: Step)
    requires Enabled(s, e) && CanCross(Apply(s, e))
    ensures CanCross(s)
  {
    var steps, f :| Run(Apply(s, e), steps, Anything) && Crossing(End(Apply(s, e), steps, Anything), f);
    RunPrepends(s, e, steps, Anything);
  }

  lemma CrossNow(s: System, e: Step)
    requires Crossing(s, e)
    ensures CanCross(s)
  {
    assert Run(s, [], Anything) && End(s, [], Anything) == s;
  }

  /** Memory is empty, and uses the number of a task that read it in another epoch. */
  ghost predicate Meets(s: System, t: TaskId) {
    && Tagged(s) && s.cache.backend.Memory? && s.cache.memory == map[]
    && t in s.tasks && s.tasks[t].Holding?
    && s.tasks[t].tag.generation == s.cache.generation && s.tasks[t].tag.epoch != s.epoch
  }

  /** Such a `set` finishes, and a new `get` returns its value. */
  lemma MetSetCrosses(s: System, t: TaskId, u: TaskId)
    requires Meets(s, t) && s.tasks[t].want.Write? && u !in s.tasks
    ensures CanCross(s)
  {
    var want, slot := s.tasks[t].want, SlotOf(s.tasks[t]);
    var finish, begin := FinishSet(t, 0, Works), Begin(u, Read(want.key), Works);
    var a := Apply(s, finish);
    TaggedStep(s, finish);
    SingleEntry(s.cache.memory, slot, want.item);
    assert a.cache.memory == map[slot := want.item] && a.tags[(Memory, slot)] == s.tasks[t].tag;
    var b := Apply(a, begin);
    TaggedStep(a, begin);
    CrossNow(b, FinishGet(u, want.item.expires - 1, Works));
    CrossLater(a, begin);
    CrossLater(s, finish);
  }

  /** Such a `get` waits for a new `set` to finish, and returns its value. */
  lemma MetGetCrosses(s: System, t: TaskId, u: TaskId, item: Item)
    requires Meets(s, t) && s.tasks[t].want.Read? && u !in s.tasks
    ensures CanCross(s)
  {
    var want, slot := Write(s.tasks[t].want.key, item), SlotOf(s.tasks[t]);
    var begin, finish := Begin(u, want, Works), FinishSet(u, 0, Works);
    var a := Apply(s, begin);
    TaggedStep(s, begin);
    var b := Apply(a, finish);
    TaggedStep(a, finish);
    SingleEntry(a.cache.memory, slot, item);
    assert b.cache.memory == map[slot := item] && b.tags[(Memory, slot)] == a.tasks[u].tag;
    CrossNow(b, FinishGet(t, item.expires - 1, Works));
    CrossLater(a, finish);
    CrossLater(s, begin);
  }

  lemma SingleEntry(memory: map<Slot, Item>, slot: Slot, item: Item)
    requires memory == map[]
    ensures memory[slot := item] == map[slot := item] && |memory[slot := item]| == 1
  {
    assert memory[slot := item].Keys == {slot};
  }

  /** Invalidations bring memory up to the number of a task that is ahead of it. */
  lemma {:induction false} AheadCrosses(s: System, t: TaskId)
    requires Tagged(s) && s.cache.backend.Memory? && s.cache.memory == map[]
    requires t in s.tasks && s.tasks[t].Holding? && s.tasks[t].tag.epoch <= s.epoch
    requires var tag := s.tasks[t].tag;
      tag.generation > s.cache.generation || (tag.generation == s.cache.generation && tag.epoch != s.epoch)
    ensures CanCross(s)
    decreases s.tasks[t].tag.generation - s.cache.generation
  {
    if s.tasks[t].tag.generation > s.cache.generation {
      TaggedStep(s, Bump(Works));
      AheadCrosses(Apply(s, Bump(Works)), t);
      CrossLater(s, Bump(Works));
    } else {
      var u := FreshTask(s.tasks.Keys);
      if s.tasks[t].want.Write? { MetSetCrosses(s, t, u); } else { MetGetCrosses(s, t, u, Item(1, "v")); }
    }
  }

  /** The exact condition on a fail-over, whichever command fails: afterwards some
      continuation ends in a hit of another epoch if and only if some task is left behind,
      `get` or `set`, whose generation memory has not counted past, unless memory uses it in
      the very epoch of the task. */
  lemma FailOverExactly(s: System, e: Step)
    requires Inv(s) && Enabled(s, e) && FailsOver(s, e)
    ensures Harmless(s, e) <==> !CanCross(Apply(s, e))
  {
    var a := Apply(s, e);
    InvStep(s, e);
    if AllPast(a) {
      FailOverSettles(s, e);
      forall steps, f | Run(a, steps, Anything) ensures !Crossing(End(a, steps, Anything), f) {
        SettledRun(a, steps);
        SettledDoesNotCross(End(a, steps, Anything), f);
      }
    } else {
      var t :| t in a.tasks && a.tasks[t].Holding? && !Past(a, a.tasks[t].tag);
      assert TaskOk(a, a.tasks[t]);
      AheadCrosses(a, t);
    }
  }

  /** No disturbing invalidation and no harmful fail-over. */
  ghost predicate Safe(s: System, e: Step) { Undisturbed(s, e) && Harmless(s, e) }

  ghost predicate Whole(s: System) { Inv(s) && (s.cache.backend.Memory? ==> Settled(s)) }

  lemma WholeStep(s: System, e: Step)
    requires Whole(s) && Enabled(s, e) && Safe(s, e)
    ensures Whole(Apply(s, e))
  {
    InvStep(s, e);
    if s.cache.backend.Memory? { SettledStep(s, e); } else if FailsOver(s, e) { FailOverSettles(s, e); }
  }

  lemma {:induction false} RunWhole(s: System, steps: seq<Step>)
    requires Whole(s) && Run(s, steps, Safe)
    ensures Whole(End(s, steps, Safe))
    decreases |steps|
  {
    if steps != [] {
      WholeStep(s, steps[0]);
      RunWhole(Apply(s, steps[0]), steps[1..]);
    }
  }

  lemma WholeDoesNotCross(s: System, e: Step)
    requires Whole(s)
    ensures !Crossing(s, e)
  {
    if s.cache.backend.Memory? {
      SettledDoesNotCross(s, e);
    } else if Enabled(s, e) && e.FinishGet? && Hit(s, e).Some? {
      assert TaskOk(s, s.tasks[e.t]) && KnownTag(s, Source(s, e));
    }
  }

  /** Over every interleaving in which each invalidation is undisturbed and each fail-over
      harmless, every hit is of the epoch its `get` read the generation in. */
  lemma SafeRunHits(c: Cache, steps: seq<Step>, e: Step)
    requires Starts(c) && Run(Start(c), steps, Safe)
    requires var s := End(Start(c), steps, Safe); Enabled(s, e) && e.FinishGet? && Hit(s, e).Some?
    ensures var s := End(Start(c), steps, Safe); Tagged(s) && Source(s, e).epoch == s.tasks[e.t].tag.epoch
  {
    RunWhole(Start(c), steps);
    WholeDoesNotCross(End(Start(c), steps, Safe), e);
  }

  // ----- a harmful fail-over is reached -----

  ghost predicate Reachable(c: Cache, s: System) {
    exists steps :: Run(Start(c), steps, Anything) && End(Start(c), steps, Anything) == s
  }

  lemma {:induction false} RunExtends(s: System, steps: seq<Step>, e: Step)
    requires Run(s, steps, Anything) && Enabled(End(s, steps, Anything), e)
    ensures Run(s, steps + [e], Anything)
    ensures End(s, steps + [e], Anything) == Apply(End(s, steps, Anything), e)
    decreases |steps|
  {
    if steps == [] {
      assert [e][1..] == [];
    } else {
      RunExtends(Apply(s, steps[0]), steps[1..], e);
      assert (steps + [e])[1..] == steps[1..] + [e];
    }
  }

  lemma Next(c: Cache, s: System, e: Step) returns (t: System)
    requires Reachable(c, s) && Enabled(s, e)
    ensures t == Apply(s, e) && Reachable(c, t)
  {
    t := Apply(s, e);
    var steps :| Run(Start(c), steps, Anything) && End(Start(c), steps, Anything) == s;
    RunExtends(Start(c), steps, e);
  }

  const REDIS_UP := Cache(Remote, 1, map[], RedisCache(Number(1), map[]))

  /** A `set` has read generation 2 from Redis, after one invalidation. */
  lemma SetUnderWay(item: Item) returns (s: System)
    ensures Reachable(REDIS_UP, s)
    ensures s.cache == Cache(Remote, 1, map[], RedisCache(Number(2), map[]))
    ensures s.tasks == map[1 := Holding(Write("k", item), Tag(Remote, 2, 1))] && s.epoch == 1
  {
    s := Start(REDIS_UP);
    assert Run(s, [], Anything) && End(s, [], Anything) == s;
    s := Next(REDIS_UP, s, Bump(Works));
    s := Next(REDIS_UP, s, Begin(1, Write("k", item), Works));
  }

  /** Redis fails; another invalidation moves the memory generation from 1 to 2. */
  lemma FailedOver(item: Item) returns (s: System)
    ensures Reachable(REDIS_UP, s)
    ensures s.cache.backend.Memory? && s.cache.generation == 2 && s.cache.memory == map[]
    ensures s.tasks.Keys == {1, 2} && s.tasks[1] == Holding(Write("k", item), Tag(Remote, 2, 1)) && s.epoch == 2
  {
    s := SetUnderWay(item);
    s := Next(REDIS_UP, s, Begin(2, Read("x"), Fails));
    assert s.cache.backend.Memory? && s.cache.generation == 1;
    s := Next(REDIS_UP, s, Bump(Works));
  }

  /** The late write lands under 2. */
  lemma LateWrite(item: Item) returns (s: System)
    ensures Reachable(REDIS_UP, s)
    ensures s.cache.backend.Memory? && s.cache.generation == 2 && s.cache.memory == map[(2, "k") := item]
    ensures 3 !in s.tasks && s.epoch == 2
    ensures (Memory, (2, "k")) in s.tags && s.tags[(Memory, (2, "k"))] == Tag(Remote, 2, 1)
  {
    s := FailedOver(item);
    var empty := s.cache.memory;
    s := Next(REDIS_UP, s, FinishSet(1, 0, Works));
    assert empty[(2, "k") := item].Keys == {(2, "k")};
  }

  lemma ReachableTagged(c: Cache, s: System)
    requires Starts(c) && (c.backend.Remote? ==> c.redis.generation.Number?) && Reachable(c, s)
    ensures Tagged(s)
  {
    var steps :| Run(Start(c), steps, Anything) && End(Start(c), steps, Anything) == s;
    PresentKeyRuns(Start(c), steps);
    RunInv(Start(c), steps, Undisturbed);
  }

  /** A `get` begun after the invalidation returns the value written for the epoch before it. */
  lemma StraddlingSetIsObserved(item: Item) returns (s: System, e: Step)
    requires item.expires > 0
    ensures Starts(REDIS_UP) && Reachable(REDIS_UP, s)
    ensures Enabled(s, e) && e.FinishGet? && Hit(s, e) == Some(item.value) && Tagged(s)
    ensures Source(s, e).epoch < s.tasks[e.t].tag.epoch
  {
    s := LateWrite(item);
    s := Next(REDIS_UP, s, Begin(3, Read("k"), Works));
    e := FinishGet(3, 0, Works);
    ReachableTagged(REDIS_UP, s);
  }
}
