/** lf_schedule_trigger on the environment it updates. */
module SchedulingRuntime {
  import opened Wrappers
  import opened Tags
  import opened Scheduling

  class Environment {
    const triggers: Program
    var current: Tag
    var stop: Tag
    var start: Tag
    var queue: seq<Event>
    var last: map<nat, Tag>
    var handle: int
    ghost var inserted: seq<Event>

    ghost function Abs(): Env
      reads this
    {
      Env(current, stop, start, queue, last, handle, inserted)
    }

    constructor (triggers: Program, start: Tag, stop: Tag)
      ensures this.triggers == triggers && Abs() == Env(start, stop, start, [], map[], 1, [])
    {
      this.triggers := triggers;
      this.start, this.stop, current := start, stop, start;
      queue, last, handle, inserted := [], map[], 1, [];
    }

    /** pqueue_tag_find_equal_same_tag with the event queue's element test. */
    method Find(trigger: nat, t: Tag) returns (found: bool)
      ensures found == Taken(queue, trigger, t)
    {
      for i := 0 to |queue|
        invariant forall j | 0 <= j < i :: !(queue[j].trigger == trigger && queue[j].tag == t)
      {
        if queue[i].trigger == trigger && queue[i].tag == t { return true; }
      }
      return false;
    }

    /** The conflict loop: events pile up in superdense time. */
    method Settle(trigger: nat, t: Tag) returns (r: Tag)
      ensures r == FirstFree(queue, trigger, t)
    {
      r := t;
      var found := Find(trigger, r);
      while found
        invariant found == Taken(queue, trigger, r) && FirstFree(queue, trigger, t) == FirstFree(queue, trigger, r)
        decreases |InTheWay(queue, trigger, r)|, found
      {
        FewerInTheWay(queue, trigger, r);
        r := Tag(r.time, r.microstep + 1);
        found := Find(trigger, r);
      }
    }

    method Insert(e: Event)
      modifies this`queue, this`last, this`inserted
      ensures Abs() == Enqueue(old(Abs()), e)
    {
      last := last[e.trigger := e.tag];
      queue := queue + [e];
      inserted := inserted + [e];
    }

    /** The spacing policies; t is the tag to go on with unless the call ends here. */
    method Space(c: Call, intended: Tag) returns (done: bool, t: Tag)
      requires c.trigger < |triggers| && intended == Intended(triggers[c.trigger], Abs(), c)
      requires IsTime(LastTag(Abs(), c.trigger).time) && IsTime(triggers[c.trigger].period)
      modifies this`queue
      ensures match Rule(triggers[c.trigger], old(Abs()), c)
        case Dropped => done && Abs() == old(Abs())
        case Replaced => done && Abs() == old(Abs()).(queue := SetToken(old(queue), c.trigger, LastTag(old(Abs()), c.trigger), c.token))
        case At(u, without) =>
          !done && t == u &&
          Abs() == if without.Some? then old(Abs()).(queue := RemoveAt(old(queue), c.trigger, without.value)) else old(Abs())
    {
      var tr := triggers[c.trigger];
      done, t := false, intended;
      var prev := if c.trigger in last then last[c.trigger] else NEVER_TAG;
      if tr.period < 0 || tr.isTimer || prev.time == NEVER { return; }
      var earliest := TimeAdd(prev.time, tr.period);
      if earliest > t.time || (earliest == t.time && tr.period == 0) {
        match tr.policy {
          case Drop => done := true;
          case Replace =>
            var found := Find(c.trigger, prev);
            if found {
              queue := SetToken(queue, c.trigger, prev, c.token);
              done := true;
            } else {
              t := Tag(earliest, 0);
            }
          case Update =>
            var found := Find(c.trigger, prev);
            if found { queue := RemoveAt(queue, c.trigger, prev); } else { NothingToRemove(queue, c.trigger, prev); }
          case Defer => t := Tag(earliest, 0);
        }
      }
    }

    /** lf_schedule_trigger for a trigger that is not NULL. */
    method ScheduleTrigger(c: Call) returns (h: int)
      requires c.trigger < |triggers| && IsTime(LastTag(Abs(), c.trigger).time) && IsTime(triggers[c.trigger].period)
      modifies this
      ensures (Abs(), h) == Schedule(triggers, old(Abs()), c)
    {
      if Compare(current, stop) > 0 { return 0; }
      var intended := IntendedTag(c);
      var done, t := Space(c, intended);
      if done { return 0; }
      var final, conflict := Resolve(c, t);
      h := Place(c, final, conflict);
    }

    /** The tag asked for, by the logical delay or by physical time. */
    method IntendedTag(c: Call) returns (t: Tag)
      requires c.trigger < |triggers|
      ensures t == Intended(triggers[c.trigger], Abs(), c)
    {
      var tr := triggers[c.trigger];
      var delay := if c.extra < 0 then 0 else c.extra;
      if !tr.isTimer { delay := delay + tr.offset; }
      t := DelayTag(current, delay);
      if tr.isPhysical {
        t := Tag(c.now + delay, 0);
        if t.time < start.time { t := Tag(start.time, 0); }
      }
    }

    /** The conflict check without spacing, and the step past the current tag. */
    method Resolve(c: Call, t: Tag) returns (final: Tag, conflict: bool)
      requires c.trigger < |triggers|
      ensures conflict == (triggers[c.trigger].period < 0 && Taken(queue, c.trigger, t))
      ensures final == FinalTag(triggers[c.trigger], Abs(), c, t)
    {
      conflict := false;
      if triggers[c.trigger].period < 0 { conflict := Find(c.trigger, t); }
      if conflict {
        final := Settle(c.trigger, t);
      } else {
        final := if Compare(t, current) == 0 then Tag(t.time, t.microstep + 1) else t;
      }
    }

    /** The stop-tag check, the insertion and the handle. */
    method Place(c: Call, final: Tag, conflict: bool) returns (h: int)
      modifies this`queue, this`last, this`inserted, this`handle
      ensures AfterStop(old(Abs()), final) ==> Abs() == old(Abs()) && h == 0
      ensures !AfterStop(old(Abs()), final) ==>
                var e := Event(c.trigger, final, c.token);
                if conflict then Abs() == Enqueue(old(Abs()), e) && h == 0
                else Abs() == Enqueue(old(Abs()), e).(handle := NextHandle(old(handle))) && h == old(handle)
    {
      if Compare(final, stop) > 0 { return 0; }
      Insert(Event(c.trigger, final, c.token));
      if conflict { return 0; }
      h := handle;
      handle := if handle + 1 > 0x7FFF_FFFF then 1 else handle + 1;
    }
  }
}
