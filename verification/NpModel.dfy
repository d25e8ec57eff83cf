/** The non-preemptive scheduler of core/threaded/scheduler_NP.c as a protocol among workers.
    Every critical section, atomic add, semaphore acquire and semaphore release is one step of
    one worker; the master scheduler's pick is an arbitrary key. */
module NpModel {
  import opened Tags

  type Reaction = nat

  datatype Slot = Empty | Holds(r: Reaction)

  /** What the code generator hands to lf_sched_init: the level and stable key of each reaction,
      the length of each level's vector and the number of workers. */
  datatype Program = Program(level: seq<nat>, key: seq<nat>, capacity: seq<nat>, workers: nat) {
    ghost function AtLevel(l: nat): set<Reaction> {
      set r | 0 <= r < |level| && level[r] == l
    }

    ghost predicate Valid() {
      && workers > 0
      && |capacity| > 0
      && |key| == |level|
      && (forall r | 0 <= r < |level| :: level[r] < |capacity|)
      && (forall l | 0 <= l < |capacity| :: capacity[l] > 0 && |AtLevel(l)| <= capacity[l])
    }

    predicate Knows(r: Reaction) { r < |level| }
  }

  /** Where a worker stands between two steps. */
  datatype Pc =
    | Top                                 // about to test should_stop
    | Pop(cl: nat)                        // has read next_reaction_level - 1
    | Got(r: Reaction)                    // holds r, about to ask the master scheduler
    | Run(r: Reaction)                    // executing r
    | Insert(r: Reaction, s: Reaction)    // r has won the status swap of s, insertion pending
    | GoIdle                              // found no reaction
    | Wait                                // counted idle, at the semaphore
    | AdvReset                            // last to go idle
    | AdvLoop
    | AdvTag
    | AdvNext                             // inside _lf_next_locked, at the new tag
    | AdvInsert(s: Reaction)
    | AdvDistribute
    | AdvNotify
    | AdvRelease(k: nat)
    | AdvStop
    | Exited

  datatype Event = Triggered(r: Reaction) | Started(r: Reaction) | Finished(r: Reaction)

  /** What happened between two tag advances. */
  datatype Round = Round(tag: Tag, log: seq<Event>)

  /** The level vectors: triggered_reactions, indexes, next_reaction_level, and the level whose
      vector executing_reactions points to. */
  datatype Vectors = Vectors(slots: seq<seq<Slot>>, indexes: seq<int>, next: nat, executing: nat)

  /** The workers, number_of_idle_workers, the count of the semaphore and should_stop. */
  datatype Desk = Desk(pcs: seq<Pc>, idle: int, credits: nat, stopped: bool)

  /** current_tag, stop_tag and _latest_tag_completed. */
  datatype Clock = Clock(current: Tag, stop: Tag, latest: Tag)

  /** queued is the reaction status; faulted an out-of-bounds access or an error exit; log the
      current round and past the earlier ones. */
  datatype State = State(v: Vectors, desk: Desk, clock: Clock, queued: seq<bool>, log: seq<Event>,
                         past: seq<Round>, faulted: bool)

  /** The nondeterminism of a step. */
  datatype Choice =
    | NoChoice
    | PickKey(key: nat)            // ms_pick_next returned this key
    | TriggerReaction(s: Reaction)
    | FinishReaction
    | AdvanceTo(tag: Tag)          // _lf_next_locked committed to this tag
    | NoAdvance                    // _lf_next_locked returned early
    | EndNext
    | LowerStop(tag: Tag)          // lf_set_stop_tag, by any thread

  datatype Try<T> = Ok(value: T) | OutOfBounds

  // ---- the operations on the level vectors ----

  /** _lf_sched_insert_reaction. */
  function InsertReaction(p: Program, v: Vectors, r: Reaction): Try<Vectors> {
    if !(p.Knows(r) && p.level[r] < |v.slots| && p.level[r] < |v.indexes|) then OutOfBounds
    else
      var l := p.level[r];
      var i := v.indexes[l];
      if !(0 <= i < |v.slots[l]|) then OutOfBounds
      else Ok(v.(slots := v.slots[l := v.slots[l][i := Holds(r)]], indexes := v.indexes[l := i + 1]))
  }

  /** The critical section of lf_sched_get_ready_reaction. */
  function PopReady(v: Vectors, cl: nat): Try<(Vectors, Slot)> {
    if !(cl < |v.indexes| && v.executing < |v.slots|) then OutOfBounds
    else
      var i := v.indexes[cl] - 1;
      var v1 := v.(indexes := v.indexes[cl := i]);
      var row := v.slots[v.executing];
      if i < 0 then Ok((v1, Empty))
      else if i >= |row| then OutOfBounds
      else Ok((v1.(slots := v.slots[v.executing := row[i := Empty]]), row[i]))
  }

  predicate Matches(p: Program, slot: Slot, key: nat) {
    slot.Holds? && slot.r < |p.key| && p.key[slot.r] == key
  }

  /** The least i in [from, max] whose slot matches the key, or max + 1. */
  function Scan(p: Program, row: seq<Slot>, key: nat, from: nat, max: int): (i: int)
    requires max < |row| && from <= max + 1
    ensures from <= i <= max + 1
    ensures i <= max ==> Matches(p, row[i], key)
    ensures forall j | from <= j < i :: !Matches(p, row[j], key)
    decreases max + 1 - from
  {
    if from > max then from
    else if Matches(p, row[from], key) then from
    else Scan(p, row, key, from + 1, max)
  }

  /** lf_sched_requeue_current_and_pick_by_key: the reaction to run instead of current. */
  function Requeue(p: Program, v: Vectors, current: Reaction, key: nat): Try<(Vectors, Reaction)> {
    if !(0 < v.next <= |v.indexes| && v.executing < |v.slots|) then OutOfBounds
    else
      var max := v.indexes[v.next - 1];
      var row := v.slots[v.executing];
      if max < 0 then Ok((v, current))
      else if max >= |row| then OutOfBounds
      else
        var i := Scan(p, row, key, 0, max);
        if i > max then Ok((v, current))
        else Ok((v.(slots := v.slots[v.executing := row[i := Holds(current)]]), row[i].r))
  }

  /** The first level at or above next with a reaction in its first slot, or the number of levels. */
  function FirstReady(slots: seq<seq<Slot>>, next: nat): (l: nat)
    requires next <= |slots| && forall k | 0 <= k < |slots| :: |slots[k]| > 0
    ensures next <= l <= |slots|
    ensures l < |slots| ==> slots[l][0].Holds?
    ensures forall k | next <= k < l :: slots[k][0].Empty?
    decreases |slots| - next
  {
    if next == |slots| then next
    else if slots[next][0].Holds? then next
    else FirstReady(slots, next + 1)
  }

  /** _lf_sched_distribute_ready_reactions: whether a level with work was found. */
  function Distribute(v: Vectors): Try<(Vectors, bool)> {
    if v.next > |v.slots| || exists k | 0 <= k < |v.slots| :: |v.slots[k]| == 0 then OutOfBounds
    else
      var l := FirstReady(v.slots, v.next);
      if l < |v.slots| then Ok((v.(next := l + 1, executing := l), true))
      else Ok((v.(next := l, executing := if v.next < l then l - 1 else v.executing), false))
  }

  /** The index reset at the head of _lf_scheduler_try_advance_tag_and_distribute. */
  function ResetIndex(v: Vectors): Try<Vectors> {
    if 0 < v.next <= |v.indexes| then Ok(v.(indexes := v.indexes[v.next - 1 := 0])) else OutOfBounds
  }

  // ---- the steps ----

  function Fault(s: State): State { s.(faulted := true) }

  function Go(s: State, w: nat, pc: Pc): State
    requires w < |s.desk.pcs|
  {
    s.(desk := s.desk.(pcs := s.desk.pcs[w := pc]))
  }

  function TopStep(s: State, w: nat): State
    requires w < |s.desk.pcs|
  {
    if s.desk.stopped then Go(s, w, Exited)
    else if s.v.next == 0 then Fault(s)
    else Go(s, w, Pop(s.v.next - 1))
  }

  function PopStep(s: State, w: nat, cl: nat): State
    requires w < |s.desk.pcs|
  {
    match PopReady(s.v, cl)
    case OutOfBounds => Fault(s)
    case Ok((v, slot)) => Go(s.(v := v), w, if slot.Holds? then Got(slot.r) else GoIdle)
  }

  /** The worker asks for an arbitrary pick and dispatches what it gets. */
  function DispatchStep(p: Program, s: State, w: nat, r: Reaction, c: Choice): State
    requires w < |s.desk.pcs|
  {
    match (if c.PickKey? then Requeue(p, s.v, r, c.key) else Ok((s.v, r)))
    case OutOfBounds => Fault(s)
    case Ok((v, t)) => Go(s.(v := v), w, Run(t)).(log := s.log + [Started(t)])
  }

  /** lf_scheduler_trigger_reaction up to the compare-and-swap. */
  function TriggerStep(s: State, w: nat, t: Reaction, pc: Pc): State
    requires w < |s.desk.pcs|
  {
    if t >= |s.queued| then Fault(s)
    else if s.queued[t] then s
    else Go(s, w, pc).(queued := s.queued[t := true], log := s.log + [Triggered(t)])
  }

  function InsertStep(p: Program, s: State, w: nat, t: Reaction, pc: Pc): State
    requires w < |s.desk.pcs|
  {
    match InsertReaction(p, s.v, t)
    case OutOfBounds => Fault(s)
    case Ok(v) => Go(s.(v := v), w, pc)
  }

  /** lf_sched_done_with_reaction. */
  function FinishStep(s: State, w: nat, r: Reaction): State
    requires w < |s.desk.pcs|
  {
    if r >= |s.queued| || !s.queued[r] then Fault(s)
    else Go(s, w, Top).(queued := s.queued[r := false], log := s.log + [Finished(r)])
  }

  /** The atomic add of _lf_sched_wait_for_work. */
  function IdleStep(p: Program, s: State, w: nat): State
    requires w < |s.desk.pcs|
  {
    var pc := if s.desk.idle + 1 == p.workers then AdvReset else Wait;
    s.(desk := s.desk.(pcs := s.desk.pcs[w := pc], idle := s.desk.idle + 1))
  }

  /** Semaphore traffic: the worker goes to Top and the count changes by n. */
  function CreditStep(s: State, w: nat, n: int): State
    requires w < |s.desk.pcs| && s.desk.credits + n >= 0
  {
    s.(desk := s.desk.(pcs := s.desk.pcs[w := Top], credits := s.desk.credits + n))
  }

  function ResetStep(s: State, w: nat): State
    requires w < |s.desk.pcs|
  {
    match ResetIndex(s.v)
    case OutOfBounds => Fault(s)
    case Ok(v) => Go(s.(v := v), w, AdvLoop)
  }

  function LoopStep(p: Program, s: State, w: nat): State
    requires w < |s.desk.pcs|
  {
    if s.v.next == |p.capacity| then Go(s.(v := s.v.(next := 0)), w, AdvTag) else Go(s, w, AdvDistribute)
  }

  /** _lf_sched_advance_tag_locked: stop, or complete the round and enter the next one. */
  function TagStep(s: State, w: nat, c: Choice): State
    requires w < |s.desk.pcs| && (c.AdvanceTo? || c.NoAdvance?)
  {
    var k := s.clock;
    if k.latest == k.current && AtMost(k.stop, k.current) then
      s.(desk := s.desk.(pcs := s.desk.pcs[w := AdvStop], stopped := true))
    else
      Go(s, w, if c.AdvanceTo? then AdvNext else AdvDistribute)
        .(clock := k.(latest := k.current, current := if c.AdvanceTo? then c.tag else k.current),
          past := s.past + [Round(k.current, s.log)], log := [])
  }

  function DistributeStep(s: State, w: nat): State
    requires w < |s.desk.pcs|
  {
    match Distribute(s.v)
    case OutOfBounds => Fault(s)
    case Ok((v, found)) => Go(s.(v := v), w, if found then AdvNotify else AdvLoop)
  }

  /** _lf_sched_notify_workers up to the release. */
  function NotifyStep(s: State, w: nat): State
    requires w < |s.desk.pcs|
  {
    if !(0 < s.v.next <= |s.v.indexes|) then Fault(s)
    else
      var ready := s.v.indexes[s.v.next - 1];
      var n := if s.desk.idle < ready then s.desk.idle else ready;
      if n < 1 then Fault(s)
      else s.(desk := s.desk.(pcs := s.desk.pcs[w := AdvRelease(n - 1)], idle := s.desk.idle - n))
  }

  /** The choices a worker may take where it stands. A running reaction triggers only reactions
      of higher levels; _lf_next_locked commits only to a later tag not after the stop tag. */
  predicate Enabled(p: Program, s: State, w: nat, c: Choice) {
    && w < |s.desk.pcs|
    && match s.desk.pcs[w] {
      case Got(_) => c.PickKey? || c == NoChoice
      case Run(r) =>
        || c == FinishReaction
        || (c.TriggerReaction? && p.Knows(r) && p.Knows(c.s) && p.level[c.s] > p.level[r])
      case Wait => c == NoChoice && s.desk.credits > 0
      case AdvTag =>
        || c == NoAdvance
        || (c.AdvanceTo? && Before(s.clock.current, c.tag) && AtMost(c.tag, s.clock.stop))
      case AdvNext => c == EndNext || (c.TriggerReaction? && p.Knows(c.s))
      case Exited => false
      case _ => c == NoChoice
    }
  }

  function Next(p: Program, s: State, w: nat, c: Choice): State
    requires p.Valid() && Enabled(p, s, w, c)
  {
    match s.desk.pcs[w]
    case Top => TopStep(s, w)
    case Pop(cl) => PopStep(s, w, cl)
    case Got(r) => DispatchStep(p, s, w, r, c)
    case Run(r) => if c.TriggerReaction? then TriggerStep(s, w, c.s, Insert(r, c.s)) else FinishStep(s, w, r)
    case Insert(r, t) => InsertStep(p, s, w, t, Run(r))
    case GoIdle => IdleStep(p, s, w)
    case Wait => CreditStep(s, w, -1)
    case AdvReset => ResetStep(s, w)
    case AdvLoop => LoopStep(p, s, w)
    case AdvTag => TagStep(s, w, c)
    case AdvNext => if c.TriggerReaction? then TriggerStep(s, w, c.s, AdvInsert(c.s)) else Go(s, w, AdvDistribute)
    case AdvInsert(t) => InsertStep(p, s, w, t, AdvNext)
    case AdvDistribute => DistributeStep(s, w)
    case AdvNotify => NotifyStep(s, w)
    case AdvRelease(k) => CreditStep(s, w, k)
    case AdvStop => CreditStep(s, w, p.workers - 1)
    case Exited => s
  }

  // ---- runs ----

  /** lf_sched_init, then the startup reactions and timers of the start tag, all queued before
      the workers run: the vectors hold them in any order. */
  ghost predicate Init(p: Program, s: State) {
    exists first: seq<Reaction> :: StartOk(p, first) && s == Start(p, first, s.clock.current, s.clock.stop)
  }

  predicate StartOk(p: Program, first: seq<Reaction>) {
    && (forall i | 0 <= i < |first| :: p.Knows(first[i]))
    && (forall i, j | 0 <= i < j < |first| :: first[i] != first[j])
  }

  function Blank(p: Program, current: Tag, stop: Tag): State {
    State(Vectors(seq(|p.capacity|, (l: nat) requires l < |p.capacity| => seq(p.capacity[l], _ => Empty)),
                  seq(|p.capacity|, _ => 0), 1, 0),
          Desk(seq(p.workers, _ => Top), 0, 0, false),
          Clock(current, stop, NEVER_TAG), seq(|p.level|, _ => false), [], [], false)
  }

  function Start(p: Program, first: seq<Reaction>, current: Tag, stop: Tag): State {
    if first == [] then Blank(p, current, stop)
    else
      var s := Start(p, first[..|first| - 1], current, stop);
      var r := first[|first| - 1];
      if r >= |s.queued| then Fault(s)
      else
        match InsertReaction(p, s.v, r)
        case OutOfBounds => Fault(s)
        case Ok(v) => s.(v := v, queued := s.queued[r := true], log := s.log + [Triggered(r)])
  }

  /** One step of worker w, or a stop tag lowered by any thread. */
  ghost predicate Step(p: Program, s: State, w: nat, c: Choice, s': State)
    requires p.Valid()
  {
    if c.LowerStop? then s' == s.(clock := s.clock.(stop := MinTag(c.tag, s.clock.stop)))
    else Enabled(p, s, w, c) && s' == Next(p, s, w, c)
  }

  datatype Act = Act(w: nat, c: Choice)

  ghost predicate IsRun(p: Program, states: seq<State>, acts: seq<Act>)
    requires p.Valid()
  {
    && |states| == |acts| + 1
    && Init(p, states[0])
    && forall i | 0 <= i < |acts| :: Step(p, states[i], acts[i].w, acts[i].c, states[i + 1])
  }
}
