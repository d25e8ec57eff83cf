/** The event loop's functions on the environment they update. */
module EventLoopRuntime {
  import opened Tags
  import opened Scheduling
  import opened EventLoop

  function RemoveFirst(queue: seq<Event>, t: Tag): seq<Event> {
    if queue == [] then [] else if queue[0].tag == t then queue[1..] else [queue[0]] + RemoveFirst(queue[1..], t)
  }

  lemma {:induction false} PopOne(queue: seq<Event>, t: Tag)
    requires AtTag(queue, t) != []
    ensures var q := RemoveFirst(queue, t);
      |q| == |queue| - 1 && AtTag(q, t) == AtTag(queue, t)[1..] && Kept(q, t) == Kept(queue, t)
  {
    if queue[0].tag != t {
      PopOne(queue[1..], t);
      var q := RemoveFirst(queue[1..], t);
      assert ([queue[0]] + q)[1..] == q;
    }
  }

  lemma {:induction false} NothingAt(queue: seq<Event>, t: Tag)
    requires forall e | e in queue :: e.tag != t
    ensures AtTag(queue, t) == [] && Kept(queue, t) == queue
  {
    if queue != [] { NothingAt(queue[1..], t); }
  }

  lemma SomethingAt(queue: seq<Event>, t: Tag)
    requires queue != [] && Earliest(queue) == t
    ensures AtTag(queue, t) != []
  {
    var i :| 0 <= i < |queue| && queue[i].tag == t;
    Split(queue, t);
    assert queue[i] in multiset(queue);
    assert queue[i] in multiset(AtTag(queue, t));
  }

  lemma {:induction false} RemovedAre(queue: seq<Event>, t: Tag)
    ensures forall e | e in RemoveFirst(queue, t) :: e in queue
  {
    if queue != [] { RemovedAre(queue[1..], t); }
  }

  /** Of the events of q at t the first ones are gone and stamped, and nothing else has changed. */
  ghost predicate Popping(q: seq<Event>, before: seq<(Event, Tag)>, queue: seq<Event>, popped: seq<(Event, Tag)>, t: Tag) {
    && popped + Stamp(AtTag(queue, t), t) == before + Stamp(AtTag(q, t), t)
    && Kept(queue, t) == Kept(q, t)
    && forall e | e in queue :: AtMost(t, e.tag)
  }

  lemma StampFirst(popped: seq<(Event, Tag)>, all: seq<Event>, t: Tag)
    requires all != []
    ensures popped + Stamp(all, t) == popped + [(all[0], t)] + Stamp(all[1..], t)
  {
  }

  lemma PopStep(q: seq<Event>, before: seq<(Event, Tag)>, queue: seq<Event>, popped: seq<(Event, Tag)>, t: Tag)
    requires Popping(q, before, queue, popped, t) && queue != [] && Earliest(queue) == t
    ensures AtTag(queue, t) != [] && |RemoveFirst(queue, t)| < |queue|
    ensures Popping(q, before, RemoveFirst(queue, t), popped + [(AtTag(queue, t)[0], t)], t)
  {
    SomethingAt(queue, t);
    PopOne(queue, t);
    RemovedAre(queue, t);
    StampFirst(popped, AtTag(queue, t), t);
  }

  lemma PopEnd(q: seq<Event>, before: seq<(Event, Tag)>, queue: seq<Event>, popped: seq<(Event, Tag)>, t: Tag)
    requires Popping(q, before, queue, popped, t) && (queue == [] || Earliest(queue) != t)
    ensures queue == Kept(q, t) && popped == before + Stamp(AtTag(q, t), t)
  {
    NothingAt(queue, t);
    assert popped + Stamp([], t) == popped;
  }

  class Environment {
    var current: Tag
    var stop: Tag
    var queue: seq<Event>
    var running: bool
    ghost var tags: seq<Tag>
    ghost var popped: seq<(Event, Tag)>
    ghost var inserted: seq<Event>
    ghost var withdrawn: seq<Event>

    ghost function Abs(): State
      reads this
    {
      State(current, stop, queue, running, tags, popped, inserted, withdrawn)
    }

    constructor (start: Tag, stop: Tag, timers: seq<Event>)
      ensures Abs() == Fresh(start, stop, timers)
    {
      current, this.stop, queue, running := start, stop, timers, true;
      tags, popped, inserted, withdrawn := [start], [], timers, [];
    }

    method Peek() returns (t: Tag)
      ensures t == Earliest(queue)
    {
      t := FOREVER_TAG;
      var i: nat := |queue|;
      while i > 0
        invariant i <= |queue| && t == Earliest(queue[i..])
      {
        i := i - 1;
        assert queue[i..][1..] == queue[i + 1..];
        if i == |queue| - 1 || Compare(queue[i].tag, t) < 0 { t := queue[i].tag; }
      }
      assert queue[0..] == queue;
    }

    method SetStopTag(t: Tag)
      modifies this`stop
      ensures stop == Lower(old(stop), t)
    {
      if Compare(t, stop) < 0 { stop := t; }
    }

    /** _lf_advance_tag with its two checks; false stands for either error exit. */
    method AdvanceTag(t: Tag) returns (ok: bool)
      modifies this`current, this`tags
      ensures ok <==> (queue != [] ==> AtMost(t, Earliest(queue))) && Before(old(current), t)
      ensures ok ==> current == t && tags == old(tags) + [t]
      ensures !ok ==> current == old(current) && tags == old(tags)
    {
      var head := Peek();
      if queue != [] && Compare(t, head) > 0 { return false; }
      if Compare(current, t) >= 0 { return false; }
      current := t;
      tags := tags + [t];
      return true;
    }

    /** _lf_pop_events: all events at the current tag, and no others. */
    method PopEvents()
      requires forall e | e in queue :: AtMost(current, e.tag)
      modifies this`queue, this`popped
      ensures queue == Kept(old(queue), current)
      ensures popped == old(popped) + Stamp(AtTag(old(queue), current), current)
    {
      var head := Peek();
      while queue != [] && Compare(head, current) == 0
        invariant head == Earliest(queue)
        invariant Popping(old(queue), old(popped), queue, popped, current)
        decreases |queue|
      {
        PopStep(old(queue), old(popped), queue, popped, current);
        PopEvent();
        head := Peek();
      }
      PopEnd(old(queue), old(popped), queue, popped, current);
    }

    method PopEvent()
      requires AtTag(queue, current) != []
      modifies this`queue, this`popped
      ensures queue == RemoveFirst(old(queue), current)
      ensures popped == old(popped) + [(AtTag(old(queue), current)[0], current)]
    {
      popped := popped + [(AtTag(queue, current)[0], current)];
      queue := RemoveFirst(queue, current);
    }

    /** The reactions of the current tag, reduced to their effects, and the stop test of _lf_do_step. */
    method DoStep(effects: seq<Effect>)
      modifies this`queue, this`inserted, this`withdrawn, this`stop, this`running
      ensures Abs() == Judge(AffectAll(old(Abs()), effects))
    {
      Perform(effects);
      running := Compare(current, stop) < 0;
    }

    method Perform(effects: seq<Effect>)
      modifies this`queue, this`inserted, this`withdrawn, this`stop
      ensures Abs() == AffectAll(old(Abs()), effects)
    {
      var i := 0;
      while i < |effects|
        invariant i <= |effects| && AffectAll(old(Abs()), effects) == AffectAll(Abs(), effects[i..])
      {
        match effects[i] {
          case Insert(e) =>
            queue := queue + [e];
            inserted := inserted + [e];
          case Withdraw(e) =>
            queue := Minus(queue, e);
            withdrawn := withdrawn + [e];
          case Renew(e, other) =>
            queue := Exchange(queue, e, other);
            inserted, withdrawn := inserted + [other], withdrawn + [e];
          case RequestStop => SetStopTag(Tag(current.time, current.microstep + 1));
        }
        assert effects[i..][1..] == effects[i + 1..];
        i := i + 1;
      }
      assert effects[i..] == [];
    }

    /** next(): the tag advance never fails in a state the loop can be in. */
    method NextStep(u: Turn) returns (ok: bool)
      requires Inv(Abs()) && running
      modifies this
      ensures ok && Abs() == Next(old(Abs()), u)
    {
      NextTagIsNext(Abs(), u.keepalive);
      ghost var s := Abs();
      var next := Peek();
      if queue == [] && !u.keepalive { SetStopTag(Tag(current.time, current.microstep + 1)); }
      if Compare(next, stop) > 0 { next := stop; }
      assert next == NextTag(s, u.keepalive) && Abs() == Planned(s, u);
      if u.interrupted {
        Perform(u.effects);
        return true;
      }
      ok := AdvanceTag(next);
      PopEvents();
      DoStep(u.effects);
    }
  }
}
