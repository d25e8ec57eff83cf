/** lf_schedule_trigger (lib/schedule.c): from a request to an event in the queue. */
module Scheduling {
  import opened Wrappers
  import opened Tags

  datatype Policy = Defer | Drop | Replace | Update

  /** period is the minimum spacing of an action, negative for none. */
  datatype Trigger = Trigger(isTimer: bool, isPhysical: bool, offset: int, period: int, policy: Policy)

  datatype Event = Event(trigger: nat, tag: Tag, token: int)

  /** last holds trigger->last_tag; inserted is the history of all events ever queued. */
  datatype Env = Env(current: Tag, stop: Tag, start: Tag, queue: seq<Event>, last: map<nat, Tag>, handle: int, inserted: seq<Event>)

  type Program = seq<Trigger>

  /** A call: the trigger, the extra delay, the payload, and the physical time read if it is physical. */
  datatype Call = Call(trigger: nat, extra: int, token: int, now: int)

  predicate AfterStop(env: Env, t: Tag) { Before(env.stop, t) }

  /** pqueue_tag_find_equal_same_tag: an event of this trigger at this tag is queued. */
  predicate Taken(queue: seq<Event>, trigger: nat, t: Tag) {
    exists i :: 0 <= i < |queue| && queue[i].trigger == trigger && queue[i].tag == t
  }

  function LastTag(env: Env, trigger: nat): Tag {
    if trigger in env.last then env.last[trigger] else NEVER_TAG
  }

  // ---- the microstep conflict loop ----

  /** The queued events that can still stand in the way from t on. */
  ghost function InTheWay(queue: seq<Event>, trigger: nat, t: Tag): set<Event> {
    set e | e in queue && e.trigger == trigger && e.tag.time == t.time && e.tag.microstep >= t.microstep
  }

  lemma FewerInTheWay(queue: seq<Event>, trigger: nat, t: Tag)
    requires Taken(queue, trigger, t)
    ensures |InTheWay(queue, trigger, NextMicrostep(t))| < |InTheWay(queue, trigger, t)|
  {
    var i :| 0 <= i < |queue| && queue[i].trigger == trigger && queue[i].tag == t;
    var a, b := InTheWay(queue, trigger, NextMicrostep(t)), InTheWay(queue, trigger, t);
    assert queue[i] in b && queue[i] !in a && a <= b;
    assert b == a + (b - a);
    assert queue[i] in b - a;
  }

  /** The first free tag from t on, at t's time. */
  function FirstFree(queue: seq<Event>, trigger: nat, t: Tag): (r: Tag)
    ensures r.time == t.time && r.microstep >= t.microstep && !Taken(queue, trigger, r)
    ensures forall m: nat | t.microstep <= m < r.microstep :: Taken(queue, trigger, Tag(t.time, m))
    decreases |InTheWay(queue, trigger, t)|
  {
    if !Taken(queue, trigger, t) then t
    else
      FewerInTheWay(queue, trigger, t);
      FirstFree(queue, trigger, NextMicrostep(t))
  }

  // ---- the tag ----

  /** The delay of a call: a negative extra delay counts as zero, and the offset of an action is added. */
  function Delay(tr: Trigger, extra: int): int {
    (if extra < 0 then 0 else extra) + if tr.isTimer then 0 else tr.offset
  }

  function Intended(tr: Trigger, env: Env, c: Call): Tag {
    if tr.isPhysical then
      var time := c.now + Delay(tr, c.extra);
      Tag(if time < env.start.time then env.start.time else time, 0)
    else DelayTag(env.current, Delay(tr, c.extra))
  }

  /** What the spacing rule makes of an intended tag. */
  datatype Ruling = Dropped | Replaced | At(tag: Tag, without: Option<Tag>)

  predicate Early(tr: Trigger, last: Tag, intended: Tag)
    requires IsTime(last.time) && IsTime(tr.period)
  {
    var earliest := TimeAdd(last.time, tr.period);
    earliest > intended.time || (earliest == intended.time && tr.period == 0)
  }

  function Rule(tr: Trigger, env: Env, c: Call): Ruling
    requires IsTime(LastTag(env, c.trigger).time) && IsTime(tr.period)
  {
    var last, intended := LastTag(env, c.trigger), Intended(tr, env, c);
    if tr.period < 0 || tr.isTimer || last.time == NEVER || !Early(tr, last, intended) then At(intended, None)
    else
      var deferred := Tag(TimeAdd(last.time, tr.period), 0);
      match tr.policy
      case Drop => Dropped
      case Replace => if Taken(env.queue, c.trigger, last) then Replaced else At(deferred, None)
      case Update => At(intended, Some(last))
      case Defer => At(deferred, None)
  }

  /** The tag finally asked for: the first free one if there is a conflict without spacing, and
      never the current tag itself. */
  function FinalTag(tr: Trigger, env: Env, c: Call, t: Tag): Tag {
    if tr.period < 0 && Taken(env.queue, c.trigger, t) then FirstFree(env.queue, c.trigger, t)
    else if t == env.current then NextMicrostep(t)
    else t
  }

  // ---- the queue ----

  function SetToken(queue: seq<Event>, trigger: nat, t: Tag, token: int): seq<Event> {
    if queue == [] then []
    else if queue[0].trigger == trigger && queue[0].tag == t then [queue[0].(token := token)] + queue[1..]
    else [queue[0]] + SetToken(queue[1..], trigger, t, token)
  }

  function RemoveAt(queue: seq<Event>, trigger: nat, t: Tag): seq<Event> {
    if queue == [] then []
    else if queue[0].trigger == trigger && queue[0].tag == t then queue[1..]
    else [queue[0]] + RemoveAt(queue[1..], trigger, t)
  }

  lemma {:induction false} NothingToRemove(queue: seq<Event>, trigger: nat, t: Tag)
    requires !Taken(queue, trigger, t)
    ensures RemoveAt(queue, trigger, t) == queue
  {
    if queue != [] {
      assert queue[0].trigger != trigger || queue[0].tag != t;
      assert forall i | 0 <= i < |queue[1..]| :: queue[1..][i] == queue[i + 1];
      NothingToRemove(queue[1..], trigger, t);
    }
  }

  /** The queue without the events at t. */
  function Kept(queue: seq<Event>, t: Tag): seq<Event> {
    if queue == [] then []
    else if queue[0].tag == t then Kept(queue[1..], t)
    else [queue[0]] + Kept(queue[1..], t)
  }

  function Enqueue(env: Env, e: Event): Env {
    env.(queue := env.queue + [e], last := env.last[e.trigger := e.tag], inserted := env.inserted + [e])
  }

  function NextHandle(h: int): int { if h + 1 > 0x7FFF_FFFF then 1 else h + 1 }

  /** The whole call; the result is the handle, 0 for none. */
  function Schedule(p: Program, env: Env, c: Call): (Env, int)
    requires c.trigger < |p| && IsTime(LastTag(env, c.trigger).time) && IsTime(p[c.trigger].period)
  {
    var tr := p[c.trigger];
    if AfterStop(env, env.current) then (env, 0)
    else
      match Rule(tr, env, c)
      case Dropped => (env, 0)
      case Replaced => (env.(queue := SetToken(env.queue, c.trigger, LastTag(env, c.trigger), c.token)), 0)
      case At(t, without) =>
        var conflict := tr.period < 0 && Taken(env.queue, c.trigger, t);
        var env1 := if without.Some? then env.(queue := RemoveAt(env.queue, c.trigger, without.value)) else env;
        var final := FinalTag(tr, env, c, t);
        if AfterStop(env, final) then (env1, 0)
        else if conflict then (Enqueue(env1, Event(c.trigger, final, c.token)), 0)
        else (Enqueue(env1, Event(c.trigger, final, c.token)).(handle := NextHandle(env.handle)), env.handle)
  }
}
