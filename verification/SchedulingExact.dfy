/** Where an event goes, from the raw inputs of the call: its delay, and what each policy does to a call
    that comes too soon. */
module SchedulingExact {
  import opened Wrappers
  import opened Tags
  import opened Scheduling
  import opened SchedulingTheorems

  // ---- the delay ----

  /** A negative extra delay counts as none; an action adds its own minimum delay, a timer does not. */
  function Wait(tr: Trigger, c: Call): int {
    var extra := if c.extra > 0 then c.extra else 0;
    if tr.isTimer then extra else tr.offset + extra
  }

  /** A physical call counts from the reading but not before the start, at microstep 0. A logical one
      counts from the current tag: a positive delay resets the microstep, none is the next microstep,
      and what reaches FOREVER is FOREVER. */
  lemma IntendedIs(p: Program, env: Env, c: Call)
    requires Sane(p, env, c)
    ensures var tr, t, d := p[c.trigger], Intended(p[c.trigger], env, c), Wait(p[c.trigger], c);
      && d >= 0
      && (tr.isPhysical ==> t.microstep == 0 && t.time >= env.start.time && t.time >= c.now + d
                            && (t.time == env.start.time || t.time == c.now + d))
      && (!tr.isPhysical && d == 0 ==> t.time == env.current.time && t.microstep == env.current.microstep + 1)
      && (!tr.isPhysical && d > 0 && env.current.time + d < FOREVER ==> t == Tag(env.current.time + d, 0))
      && (!tr.isPhysical && env.current.time + d >= FOREVER ==> t == FOREVER_TAG)
  {
  }

  /** The earliest time the spacing allows after the last event. */
  function Resume(tr: Trigger, last: Tag): int { if tr.period == FOREVER then FOREVER else last.time + tr.period }

  /** The trigger has a last event, and the time asked for does not keep the spacing from it; with
      spacing zero it may not share its time either. */
  predicate TooSoon(tr: Trigger, last: Tag, t: Tag) {
    && !tr.isTimer && tr.period >= 0 && last.time != NEVER
    && if tr.period == 0 then t.time <= last.time else t.time < Resume(tr, last)
  }

  /** An event of the trigger is already queued for the tag, and there is no spacing. */
  predicate Conflict(tr: Trigger, env: Env, c: Call, t: Tag) { tr.period < 0 && Taken(env.queue, c.trigger, t) }

  lemma EarlyIs(p: Program, env: Env, c: Call, t: Tag)
    requires Sane(p, env, c)
    ensures IsEarly(p[c.trigger], LastTag(env, c.trigger), t) <==> TooSoon(p[c.trigger], LastTag(env, c.trigger), t)
  {
  }

  /** The call's event follows what is left of the queue, unless its tag is past the stop. */
  ghost predicate Put(env: Env, rest: seq<Event>, c: Call, t: Tag, result: (Env, int)) {
    var r := result.0;
    if Before(env.stop, t) then result == (env.(queue := rest), 0)
    else
      && r.queue == rest + [Event(c.trigger, t, c.token)] && r.last == env.last[c.trigger := t]
      && r.inserted == env.inserted + [Event(c.trigger, t, c.token)] && result.1 == env.handle
  }

  /** A call that is not too soon and meets no event queues its event at just the tag it asks for, with
      its payload; it changes nothing if that tag, or the current one, is past the stop. */
  lemma PlainCall(p: Program, env: Env, c: Call)
    requires Sane(p, env, c)
    requires var t := Intended(p[c.trigger], env, c);
      !TooSoon(p[c.trigger], LastTag(env, c.trigger), t) && !Conflict(p[c.trigger], env, c, t)
    ensures if Before(env.stop, env.current) then Schedule(p, env, c) == (env, 0)
            else Put(env, env.queue, c, Intended(p[c.trigger], env, c), Schedule(p, env, c))
  {
    EarlyIs(p, env, c, Intended(p[c.trigger], env, c));
    IntendedIsLater(p, env, c);
  }

  /** Without spacing, a call that meets an event goes to the first free microstep of the same time. */
  lemma ConflictingCall(p: Program, env: Env, c: Call)
    requires Sane(p, env, c) && !AfterStop(env, env.current)
    requires Conflict(p[c.trigger], env, c, Intended(p[c.trigger], env, c))
    ensures var (r, handle), t := Schedule(p, env, c), Intended(p[c.trigger], env, c);
      exists m: nat ::
        && m > t.microstep && !Taken(env.queue, c.trigger, Tag(t.time, m))
        && (forall k: nat | t.microstep <= k < m :: Taken(env.queue, c.trigger, Tag(t.time, k)))
        && handle == 0
        && r.queue == if Before(env.stop, Tag(t.time, m)) then env.queue else env.queue + [Event(c.trigger, Tag(t.time, m), c.token)]
  {
    var t := Intended(p[c.trigger], env, c);
    var u := FirstFree(env.queue, c.trigger, t);
    assert u == Tag(t.time, u.microstep);
  }

  // ---- a call that comes too soon ----

  /** The position of the first event of the trigger at the tag. */
  function Position(queue: seq<Event>, trigger: nat, t: Tag): (i: nat)
    requires Taken(queue, trigger, t)
    ensures i < |queue| && queue[i].trigger == trigger && queue[i].tag == t
    ensures forall j | 0 <= j < i :: !(queue[j].trigger == trigger && queue[j].tag == t)
  {
    if queue[0].trigger == trigger && queue[0].tag == t then 0
    else
      TakenSplit(queue, trigger, t);
      1 + Position(queue[1..], trigger, t)
  }

  lemma {:induction false} SetTokenIs(queue: seq<Event>, trigger: nat, t: Tag, token: int)
    requires Taken(queue, trigger, t)
    ensures var i := Position(queue, trigger, t); SetToken(queue, trigger, t, token) == queue[i := queue[i].(token := token)]
  {
    if !(queue[0].trigger == trigger && queue[0].tag == t) {
      TakenSplit(queue, trigger, t);
      SetTokenIs(queue[1..], trigger, t, token);
    }
  }

  lemma {:induction false} RemoveAtIs(queue: seq<Event>, trigger: nat, t: Tag)
    requires Taken(queue, trigger, t)
    ensures RemoveAt(queue, trigger, t) == CutOut(queue, Position(queue, trigger, t))
  {
    if !(queue[0].trigger == trigger && queue[0].tag == t) {
      TakenSplit(queue, trigger, t);
      RemoveAtIs(queue[1..], trigger, t);
      CutDeeper(queue, Position(queue[1..], trigger, t));
    }
  }

  function CutOut(queue: seq<Event>, i: nat): seq<Event>
    requires i < |queue|
  {
    queue[..i] + queue[i + 1..]
  }

  lemma CutDeeper(queue: seq<Event>, i: nat)
    requires i + 1 < |queue|
    ensures [queue[0]] + CutOut(queue[1..], i) == CutOut(queue, i + 1)
  {
    assert queue[1..][..i] == queue[1..i + 1] && queue[1..][i + 1..] == queue[i + 2..];
    assert [queue[0]] + queue[1..i + 1] == queue[..i + 1];
  }

  /** The first microstep of the earliest time allowed, or the second if the first is the current tag. */
  function Deferred(tr: Trigger, env: Env, last: Tag): Tag {
    Tag(Resume(tr, last), if env.current == Tag(Resume(tr, last), 0) then 1 else 0)
  }

  /** The call finds the spacing violated and the run not past its stop tag. */
  ghost predicate ComesEarly(p: Program, env: Env, c: Call) {
    && Sane(p, env, c) && !AfterStop(env, env.current)
    && TooSoon(p[c.trigger], LastTag(env, c.trigger), Intended(p[c.trigger], env, c))
  }

  lemma EarlyRule(p: Program, env: Env, c: Call)
    requires ComesEarly(p, env, c)
    ensures var tr, last, t := p[c.trigger], LastTag(env, c.trigger), Intended(p[c.trigger], env, c);
      && Before(env.current, t) && TimeAdd(last.time, tr.period) == Resume(tr, last)
      && Rule(tr, env, c) ==
         match tr.policy
         case Drop => Dropped
         case Replace => if Taken(env.queue, c.trigger, last) then Replaced else At(Tag(Resume(tr, last), 0), None)
         case Update => At(t, Some(last))
         case Defer => At(Tag(Resume(tr, last), 0), None)
  {
    EarlyIs(p, env, c, Intended(p[c.trigger], env, c));
    IntendedIsLater(p, env, c);
  }

  /** Drop: nothing happens. */
  lemma EarlyDrop(p: Program, env: Env, c: Call)
    requires ComesEarly(p, env, c) && p[c.trigger].policy == Drop
    ensures Schedule(p, env, c) == (env, 0)
  {
    EarlyRule(p, env, c);
  }

  /** Defer: the event goes to the earliest time allowed. */
  lemma EarlyDefer(p: Program, env: Env, c: Call)
    requires ComesEarly(p, env, c) && p[c.trigger].policy == Defer
    ensures Put(env, env.queue, c, Deferred(p[c.trigger], env, LastTag(env, c.trigger)), Schedule(p, env, c))
  {
    EarlyRule(p, env, c);
  }

  /** Replace: the last event, if it is still queued, gets the payload and nothing else changes; if not,
      the event is deferred. */
  lemma EarlyReplace(p: Program, env: Env, c: Call)
    requires ComesEarly(p, env, c) && p[c.trigger].policy == Replace
    ensures var last := LastTag(env, c.trigger);
      if Taken(env.queue, c.trigger, last)
      then Schedule(p, env, c) ==
           (env.(queue := env.queue[Position(env.queue, c.trigger, last) := Event(c.trigger, last, c.token)]), 0)
      else Put(env, env.queue, c, Deferred(p[c.trigger], env, last), Schedule(p, env, c))
  {
    EarlyRule(p, env, c);
    if Taken(env.queue, c.trigger, LastTag(env, c.trigger)) { SetTokenIs(env.queue, c.trigger, LastTag(env, c.trigger), c.token); }
  }

  /** Update: the last event, if it is still queued, is taken out, and the event goes to the tag asked for. */
  lemma EarlyUpdate(p: Program, env: Env, c: Call)
    requires ComesEarly(p, env, c) && p[c.trigger].policy == Update
    ensures var last := LastTag(env, c.trigger);
      var rest := if Taken(env.queue, c.trigger, last) then CutOut(env.queue, Position(env.queue, c.trigger, last)) else env.queue;
      Put(env, rest, c, Intended(p[c.trigger], env, c), Schedule(p, env, c))
  {
    EarlyRule(p, env, c);
    if Taken(env.queue, c.trigger, LastTag(env, c.trigger)) {
      RemoveAtIs(env.queue, c.trigger, LastTag(env, c.trigger));
    } else {
      NothingToRemove(env.queue, c.trigger, LastTag(env, c.trigger));
    }
  }

  /** A call gives out the next handle or none; handles go up by one and, past the largest, start again. */
  lemma HandleIs(p: Program, env: Env, c: Call)
    requires Sane(p, env, c) && 1 <= env.handle <= 0x7FFF_FFFF
    ensures var (r, handle) := Schedule(p, env, c);
      if handle == 0 then r.handle == env.handle
      else handle == env.handle && r.handle == if env.handle == 0x7FFF_FFFF then 1 else env.handle + 1
  {
  }

  // ---- the minimum delay over runs ----

  /** The time before which no event of the call may lie. */
  function Floor(tr: Trigger, now: Tag, c: Call): int {
    var t := (if tr.isPhysical then c.now else now.time) + Wait(tr, c);
    if t < FOREVER || tr.isPhysical then t else FOREVER
  }

  /** Whatever the policy and the conflicts, an event is never queued for less than the delay of its call. */
  lemma DelayIsKept(p: Program, env: Env, c: Call)
    requires Sane(p, env, c) && Added(p, env, c).Some?
    ensures Added(p, env, c).value.time >= Floor(p[c.trigger], env.current, c)
  {
    IntendedIs(p, env, c);
    EarlyIs(p, env, c, Intended(p[c.trigger], env, c));
  }

  /** Every event ever queued by a call of a run waits at least the delay of that call: for an action,
      its minimum delay and the extra delay. */
  lemma {:induction false} EveryEventWaits(p: Program, envs: seq<Env>, ops: seq<Op>, n: nat, k: nat) returns (i: nat)
    requires IsRun(p, envs, ops) && n < |envs| && |envs[0].inserted| <= k < |envs[n].inserted|
    ensures i < n && ops[i].Do? && ops[i].c.trigger < |p|
    ensures var e, c := envs[n].inserted[k], ops[i].c;
      e.trigger == c.trigger && e.token == c.token && e.tag.time >= Floor(p[c.trigger], envs[i].current, c)
  {
    var before := envs[n - 1];
    if k < |before.inserted| {
      i := EveryEventWaits(p, envs, ops, n - 1, k);
      if ops[n - 1].Do? { AddedIs(p, before, ops[n - 1].c); }
    } else {
      i := n - 1;
      AddedIs(p, before, ops[i].c);
      DelayIsKept(p, before, ops[i].c);
    }
  }
}
