/** What every call to lf_schedule_trigger keeps, over runs of calls and tag advances. */
module SchedulingTheorems {
  import opened Wrappers
  import opened Tags
  import opened Scheduling

  /** Machine ranges, and no overflow of the spacing: what the runtime takes for granted. */
  ghost predicate Sane(p: Program, env: Env, c: Call) {
    && c.trigger < |p|
    && IsTime(LastTag(env, c.trigger).time) && IsTime(p[c.trigger].period)
    && (p[c.trigger].period >= 0 && LastTag(env, c.trigger).time != NEVER ==> IsTime(LastTag(env, c.trigger).time + p[c.trigger].period))
    && NEVER < env.current.time < FOREVER && p[c.trigger].offset >= 0
    && (LastTag(env, c.trigger).time < FOREVER)
    && (p[c.trigger].isPhysical ==> c.now > env.current.time)
  }

  /** A logical delay, or a physical reading later than the current time, leads to a later tag. */
  lemma IntendedIsLater(p: Program, env: Env, c: Call)
    requires Sane(p, env, c)
    ensures Before(env.current, Intended(p[c.trigger], env, c))
  {
  }

  /** The tag of the event a call adds, if it adds one. */
  ghost function Added(p: Program, env: Env, c: Call): Option<Tag>
    requires Sane(p, env, c)
  {
    var tr := p[c.trigger];
    var r := Rule(tr, env, c);
    if AfterStop(env, env.current) || !r.At? || AfterStop(env, FinalTag(tr, env, c, r.tag)) then None
    else Some(FinalTag(tr, env, c, r.tag))
  }

  lemma AddedIs(p: Program, env: Env, c: Call)
    requires Sane(p, env, c)
    ensures var r := Schedule(p, env, c).0;
      && r.current == env.current && r.stop == env.stop
      && (if Added(p, env, c).Some?
          then r.inserted == env.inserted + [Event(c.trigger, Added(p, env, c).value, c.token)]
               && r.last == env.last[c.trigger := Added(p, env, c).value]
          else r.inserted == env.inserted && r.last == env.last)
  {
  }

  /** The one way to an event that is not in the future: spacing zero, a second event at the current
      time, asked for without delay after the first microstep. */
  predicate Backdated(p: Program, env: Env, c: Call)
    requires c.trigger < |p|
  {
    var tr := p[c.trigger];
    && tr.period == 0 && !tr.isTimer && !tr.isPhysical && Delay(tr, c.extra) == 0
    && LastTag(env, c.trigger).time == env.current.time && env.current.microstep > 0
    && (tr.policy == Defer || (tr.policy == Replace && !Taken(env.queue, c.trigger, LastTag(env, c.trigger))))
  }

  /** Every event added lies strictly after the current tag, unless the call is of that one kind, and
      never after the stop tag. */
  lemma AddedIsInTheFuture(p: Program, env: Env, c: Call)
    requires Sane(p, env, c) && Added(p, env, c).Some?
    ensures !Before(env.stop, Added(p, env, c).value)
    ensures Before(env.current, Added(p, env, c).value) <==> !Backdated(p, env, c)
  {
    IntendedIsLater(p, env, c);
    var tr, t := p[c.trigger], Rule(p[c.trigger], env, c).tag;
    if tr.period < 0 && Taken(env.queue, c.trigger, t) { var _ := FirstFree(env.queue, c.trigger, t); }
  }

  // ---- no two events of an action at one tag ----

  ghost predicate NoTwins(queue: seq<Event>, trigger: nat) {
    forall i, j | 0 <= i < j < |queue| && queue[i].trigger == trigger && queue[j].trigger == trigger :: queue[i].tag != queue[j].tag
  }

  /** An action whose events cannot share a tag: no spacing, or positive spacing without update. */
  predicate Separate(tr: Trigger) {
    !tr.isTimer && (tr.period < 0 || (tr.period > 0 && tr.policy != Update))
  }

  predicate Spaced(tr: Trigger) { !tr.isTimer && tr.period > 0 && tr.policy != Update }

  /** Queued events of a spaced action lie at or before its last tag. */
  ghost predicate LastIsLatest(p: Program, env: Env) {
    forall i | 0 <= i < |env.queue| && env.queue[i].trigger < |p| && Spaced(p[env.queue[i].trigger]) ::
      env.queue[i].trigger in env.last && env.queue[i].tag.time <= env.last[env.queue[i].trigger].time
      && NEVER < env.last[env.queue[i].trigger].time
  }

  /** Consecutive events of a spaced action are at least the spacing apart, over the whole history. */
  ghost predicate HistorySpaced(p: Program, env: Env) {
    && (forall i | 0 <= i < |env.inserted| && env.inserted[i].trigger < |p| && Spaced(p[env.inserted[i].trigger]) ::
          env.inserted[i].trigger in env.last && env.inserted[i].tag.time <= env.last[env.inserted[i].trigger].time
          && NEVER < env.last[env.inserted[i].trigger].time)
    && (forall i, j | 0 <= i < j < |env.inserted| && env.inserted[i].trigger == env.inserted[j].trigger < |p|
                      && Spaced(p[env.inserted[i].trigger]) ::
          env.inserted[j].tag.time >= env.inserted[i].tag.time + p[env.inserted[i].trigger].period)
  }

  /** The first event of a spaced action may go anywhere, every later one at least the spacing on. */
  lemma SpacedTag(p: Program, env: Env, c: Call)
    requires Sane(p, env, c) && Added(p, env, c).Some? && Spaced(p[c.trigger])
    ensures LastTag(env, c.trigger).time == NEVER
            || Added(p, env, c).value.time >= LastTag(env, c.trigger).time + p[c.trigger].period
  {
  }

  lemma {:induction false} SetTokenKeepsTags(queue: seq<Event>, trigger: nat, t: Tag, token: int)
    ensures var r := SetToken(queue, trigger, t, token);
      |r| == |queue| && forall i | 0 <= i < |r| :: r[i].trigger == queue[i].trigger && r[i].tag == queue[i].tag
  {
    if queue != [] { SetTokenKeepsTags(queue[1..], trigger, t, token); }
  }

  /** Removal keeps order: what is left is a subsequence. */
  lemma {:induction false} RemoveAtKeeps(queue: seq<Event>, trigger: nat, t: Tag, other: nat)
    ensures var r := RemoveAt(queue, trigger, t);
      && (forall e | e in r :: e in queue)
      && (NoTwins(queue, other) ==> NoTwins(r, other))
  {
    if queue == [] { return; }
    var tail := queue[1..];
    assert queue == [queue[0]] + tail;
    if NoTwins(queue, other) { NoTwinsTail(queue, other); }
    if !(queue[0].trigger == trigger && queue[0].tag == t) {
      RemoveAtKeeps(tail, trigger, t, other);
      var rest := RemoveAt(tail, trigger, t);
      assert RemoveAt(queue, trigger, t) == [queue[0]] + rest;
      if NoTwins(queue, other) {
        forall j | 0 <= j < |rest| && queue[0].trigger == other && rest[j].trigger == other ensures queue[0].tag != rest[j].tag {
          assert rest[j] in rest;
          var k :| 0 <= k < |tail| && tail[k] == rest[j];
          assert queue[k + 1] == rest[j];
        }
      }
    }
  }

  lemma NoTwinsTail(queue: seq<Event>, trigger: nat)
    requires queue != [] && NoTwins(queue, trigger)
    ensures NoTwins(queue[1..], trigger)
  {
  }

  lemma NoTwinsAppend(queue: seq<Event>, trigger: nat, e: Event)
    requires NoTwins(queue, trigger) && (e.trigger == trigger ==> !Taken(queue, trigger, e.tag))
    ensures NoTwins(queue + [e], trigger)
  {
  }

  /** The added tag is not taken. */
  lemma AddedIsFree(p: Program, env: Env, c: Call)
    requires Sane(p, env, c) && Added(p, env, c).Some? && Separate(p[c.trigger]) && LastIsLatest(p, env)
    ensures !Taken(env.queue, c.trigger, Added(p, env, c).value)
  {
    var tr := p[c.trigger];
    IntendedIsLater(p, env, c);
    if tr.period > 0 {
      SpacedTag(p, env, c);
      forall i | 0 <= i < |env.queue| && env.queue[i].trigger == c.trigger ensures env.queue[i].tag != Added(p, env, c).value {
        assert env.queue[i].trigger in env.last;
      }
    }
  }

  /** A call keeps the events of every separate action apart. */
  lemma ScheduleKeepsApart(p: Program, env: Env, c: Call, other: nat)
    requires Sane(p, env, c) && LastIsLatest(p, env) && other < |p| && Separate(p[other]) && NoTwins(env.queue, other)
    ensures NoTwins(Schedule(p, env, c).0.queue, other)
  {
    var tr, last := p[c.trigger], LastTag(env, c.trigger);
    SetTokenKeepsTags(env.queue, c.trigger, last, c.token);
    RemoveAtKeeps(env.queue, c.trigger, last, other);
    if Added(p, env, c).Some? {
      var e := Event(c.trigger, Added(p, env, c).value, c.token);
      if c.trigger == other {
        AddedIsFree(p, env, c);
        NoTwinsAppend(env.queue, other, e);
      } else {
        NoTwinsAppend(env.queue, other, e);
        NoTwinsAppend(RemoveAt(env.queue, c.trigger, last), other, e);
      }
    }
  }

  ghost predicate OldOrNew(p: Program, env: Env, c: Call, e: Event)
    requires Sane(p, env, c)
  {
    Taken(env.queue, e.trigger, e.tag) || (Added(p, env, c).Some? && e == Event(c.trigger, Added(p, env, c).value, c.token))
  }

  /** A call leaves only old events, perhaps with another payload, and the one it adds. */
  lemma QueueAfter(p: Program, env: Env, c: Call)
    requires Sane(p, env, c)
    ensures forall i | 0 <= i < |Schedule(p, env, c).0.queue| :: OldOrNew(p, env, c, Schedule(p, env, c).0.queue[i])
  {
    QueueShape(p, env, c);
    var queue, base := Schedule(p, env, c).0.queue, Base(p, env, c);
    forall i | 0 <= i < |queue| ensures OldOrNew(p, env, c, queue[i]) {
      if i < |base| { BaseIsOld(p, env, c, i); }
    }
  }

  /** The old events after a call: with another payload, without the one withdrawn, or as they were. */
  function Base(p: Program, env: Env, c: Call): seq<Event>
    requires c.trigger < |p| && IsTime(LastTag(env, c.trigger).time) && IsTime(p[c.trigger].period)
  {
    var r, last := Rule(p[c.trigger], env, c), LastTag(env, c.trigger);
    if AfterStop(env, env.current) then env.queue
    else if r.Replaced? then SetToken(env.queue, c.trigger, last, c.token)
    else if r.At? && r.without.Some? then RemoveAt(env.queue, c.trigger, r.without.value)
    else env.queue
  }

  lemma QueueShape(p: Program, env: Env, c: Call)
    requires Sane(p, env, c)
    ensures Schedule(p, env, c).0.queue ==
            if Added(p, env, c).Some? then Base(p, env, c) + [Event(c.trigger, Added(p, env, c).value, c.token)] else Base(p, env, c)
  {
  }

  lemma BaseIsOld(p: Program, env: Env, c: Call, i: nat)
    requires Sane(p, env, c) && i < |Base(p, env, c)|
    ensures Taken(env.queue, Base(p, env, c)[i].trigger, Base(p, env, c)[i].tag)
  {
    var r, last, e := Rule(p[c.trigger], env, c), LastTag(env, c.trigger), Base(p, env, c)[i];
    SetTokenKeepsTags(env.queue, c.trigger, last, c.token);
    if r.At? && r.without.Some? { RemoveAtKeeps(env.queue, c.trigger, r.without.value, 0); }
    if e in env.queue {
      var j :| 0 <= j < |env.queue| && env.queue[j] == e;
    } else {
      assert env.queue[i].trigger == e.trigger && env.queue[i].tag == e.tag;
    }
  }

  lemma ScheduleKeepsLatest(p: Program, env: Env, c: Call)
    requires Sane(p, env, c) && LastIsLatest(p, env)
    ensures LastIsLatest(p, Schedule(p, env, c).0)
  {
    var r := Schedule(p, env, c).0;
    AddedIs(p, env, c);
    QueueAfter(p, env, c);
    if Added(p, env, c).Some? && Spaced(p[c.trigger]) { SpacedTag(p, env, c); AddedIsReal(p, env, c); }
    forall i | 0 <= i < |r.queue| && r.queue[i].trigger < |p| && Spaced(p[r.queue[i].trigger])
      ensures r.queue[i].trigger in r.last && r.queue[i].tag.time <= r.last[r.queue[i].trigger].time && NEVER < r.last[r.queue[i].trigger].time
    {
      assert OldOrNew(p, env, c, r.queue[i]);
      if j :| 0 <= j < |env.queue| && env.queue[j].trigger == r.queue[i].trigger && env.queue[j].tag == r.queue[i].tag {
        assert env.queue[j].trigger in env.last;
      }
    }
  }

  lemma AddedIsReal(p: Program, env: Env, c: Call)
    requires Sane(p, env, c) && Added(p, env, c).Some? && p[c.trigger].period != 0
    ensures NEVER < Added(p, env, c).value.time
  {
    AddedIsInTheFuture(p, env, c);
  }

  lemma ScheduleKeepsSpacing(p: Program, env: Env, c: Call)
    requires Sane(p, env, c) && HistorySpaced(p, env)
    ensures HistorySpaced(p, Schedule(p, env, c).0)
  {
    AddedIs(p, env, c);
    if Added(p, env, c).Some? && Spaced(p[c.trigger]) { SpacedTag(p, env, c); AddedIsReal(p, env, c); }
  }

  // ---- exactly when two events of a trigger meet ----

  /** The call finds the trigger's last event closer than the spacing allows. */
  predicate IsEarly(tr: Trigger, last: Tag, t: Tag)
    requires IsTime(last.time) && IsTime(tr.period)
  {
    tr.period >= 0 && !tr.isTimer && last.time != NEVER && Early(tr, last, t)
  }

  /** The tag of a deferred event: the earliest time the spacing allows, but not the current tag. */
  function DeferredTag(tr: Trigger, env: Env, last: Tag): Tag
    requires IsTime(last.time) && IsTime(tr.period)
  {
    var t := Tag(TimeAdd(last.time, tr.period), 0);
    if t == env.current then NextMicrostep(t) else t
  }

  /** From the queue, the last tag, the intended tag and the policy alone: the call will land on a
      queued event of its trigger. Without spacing it never does. With spacing it does if such an
      event is at the intended tag, or at the deferred tag if the call is early and deferred, unless
      the update policy withdraws just that event; and the tag is not after the stop tag. */
  predicate WillMeet(tr: Trigger, env: Env, c: Call)
    requires IsTime(LastTag(env, c.trigger).time) && IsTime(tr.period)
  {
    var last, t := LastTag(env, c.trigger), Intended(tr, env, c);
    var later := DeferredTag(tr, env, last);
    && tr.period >= 0 && !AfterStop(env, env.current)
    && if !IsEarly(tr, last, t) then Taken(env.queue, c.trigger, t) && !AfterStop(env, t)
       else match tr.policy
            case Drop => false
            case Update => t != last && Taken(env.queue, c.trigger, t) && !AfterStop(env, t)
            case Replace => !Taken(env.queue, c.trigger, last) && Taken(env.queue, c.trigger, later) && !AfterStop(env, later)
            case Defer => Taken(env.queue, c.trigger, later) && !AfterStop(env, later)
  }

  /** Which tags of the trigger a withdrawal leaves. */
  lemma {:induction false} RemoveAtLeaves(queue: seq<Event>, trigger: nat, t: Tag, u: Tag)
    requires NoTwins(queue, trigger)
    ensures Taken(RemoveAt(queue, trigger, t), trigger, u) <==> u != t && Taken(queue, trigger, u)
  {
    if queue != [] {
      var tail := queue[1..];
      NoTwinsTail(queue, trigger);
      TakenSplit(queue, trigger, u);
      if queue[0].trigger == trigger && queue[0].tag == t {
        forall i | 0 <= i < |tail| && tail[i].trigger == trigger ensures tail[i].tag != t { assert queue[i + 1] == tail[i]; }
      } else {
        RemoveAtLeaves(tail, trigger, t, u);
        var r := RemoveAt(queue, trigger, t);
        assert r[1..] == RemoveAt(tail, trigger, t);
        TakenSplit(r, trigger, u);
      }
    }
  }

  lemma TakenSplit(queue: seq<Event>, trigger: nat, u: Tag)
    requires queue != []
    ensures Taken(queue, trigger, u) <==>
            (queue[0].trigger == trigger && queue[0].tag == u) || Taken(queue[1..], trigger, u)
  {
    var tail := queue[1..];
    if i :| 0 <= i < |tail| && tail[i].trigger == trigger && tail[i].tag == u { assert queue[i + 1] == tail[i]; }
    if i :| 0 <= i < |queue| && queue[i].trigger == trigger && queue[i].tag == u {
      if i > 0 { assert tail[i - 1] == queue[i]; }
    }
  }

  lemma AppendTwins(queue: seq<Event>, e: Event)
    requires NoTwins(queue, e.trigger)
    ensures NoTwins(queue + [e], e.trigger) <==> !Taken(queue, e.trigger, e.tag)
  {
    var more := queue + [e];
    assert more[|queue|] == e && forall i | 0 <= i < |queue| :: more[i] == queue[i];
  }

  /** For every trigger, policy and spacing: after a call two queued events of the trigger share a tag
      exactly when the call was one that meets an event. */
  lemma TwinsIff(p: Program, env: Env, c: Call)
    requires Sane(p, env, c) && NoTwins(env.queue, c.trigger)
    ensures NoTwins(Schedule(p, env, c).0.queue, c.trigger) <==> !WillMeet(p[c.trigger], env, c)
  {
    var tr, last, t := p[c.trigger], LastTag(env, c.trigger), Intended(p[c.trigger], env, c);
    IntendedIsLater(p, env, c);
    var r := Rule(tr, env, c);
    if r.At? && r.without.Some? {
      RemoveAtLeaves(env.queue, c.trigger, last, t);
      RemoveAtKeeps(env.queue, c.trigger, last, c.trigger);
      AppendTwins(RemoveAt(env.queue, c.trigger, last), Event(c.trigger, t, c.token));
    } else if r.At? {
      AppendTwins(env.queue, Event(c.trigger, FinalTag(tr, env, c, r.tag), c.token));
    } else {
      SetTokenKeepsTags(env.queue, c.trigger, last, c.token);
    }
  }

  // ---- runs ----

  /** A call, a lowering of the stop tag, or the move to a tag no queued event precedes, whose own
      events are then handled. */
  datatype Op = Do(c: Call) | Lower(stop: Tag) | Advance(t: Tag)

  ghost predicate Legal(p: Program, env: Env, op: Op) {
    match op
    case Do(c) => Sane(p, env, c)
    case Lower(stop) => AtMost(stop, env.stop)
    case Advance(t) => Before(env.current, t) && forall e | e in env.queue :: AtMost(t, e.tag)
  }

  ghost function Next(p: Program, env: Env, op: Op): Env
    requires Legal(p, env, op)
  {
    match op
    case Do(c) => Schedule(p, env, c).0
    case Lower(stop) => env.(stop := stop)
    case Advance(t) => env.(current := t, queue := Kept(env.queue, t))
  }

  /** Before the first call: no trigger has a last tag, and only timers have queued their first events. */
  ghost predicate Starts(p: Program, env: Env) {
    && env.last == map[] && env.inserted == env.queue
    && forall e | e in env.queue :: e.trigger < |p| && p[e.trigger].isTimer && Before(env.current, e.tag)
  }

  ghost predicate IsRun(p: Program, envs: seq<Env>, ops: seq<Op>) {
    && |envs| == |ops| + 1 && Starts(p, envs[0])
    && forall i | 0 <= i < |ops| :: Legal(p, envs[i], ops[i]) && envs[i + 1] == Next(p, envs[i], ops[i])
  }

  ghost predicate AllApart(p: Program, queue: seq<Event>) {
    forall k | 0 <= k < |p| && Separate(p[k]) :: NoTwins(queue, k)
  }

  /** A trigger none of whose calls can be backdated: a timer, a physical action, or an action whose
      spacing is not zero. */
  predicate Forward(tr: Trigger) { tr.isTimer || tr.isPhysical || tr.period != 0 }

  /** If no logical action has spacing zero, every queued event lies ahead. */
  ghost predicate AllAhead(p: Program, env: Env) {
    (forall k | 0 <= k < |p| :: Forward(p[k])) ==> forall e | e in env.queue :: Before(env.current, e.tag)
  }

  ghost predicate Inv(p: Program, env: Env) {
    LastIsLatest(p, env) && HistorySpaced(p, env) && AllApart(p, env.queue) && AllAhead(p, env)
  }

  lemma {:induction false} KeptIs(queue: seq<Event>, t: Tag, k: nat)
    ensures forall e | e in Kept(queue, t) :: e in queue && e.tag != t
    ensures NoTwins(queue, k) ==> NoTwins(Kept(queue, t), k)
  {
    if queue != [] {
      var tail := queue[1..];
      assert queue == [queue[0]] + tail;
      KeptIs(tail, t, k);
      if NoTwins(queue, k) {
        NoTwinsTail(queue, k);
        var rest := Kept(tail, t);
        forall j | 0 <= j < |rest| && queue[0].trigger == k && rest[j].trigger == k ensures queue[0].tag != rest[j].tag {
          assert rest[j] in rest;
          var i :| 0 <= i < |tail| && tail[i] == rest[j];
          assert queue[i + 1] == rest[j];
        }
      }
    }
  }

  lemma CallKeeps(p: Program, env: Env, c: Call)
    requires Sane(p, env, c) && Inv(p, env)
    ensures Inv(p, Schedule(p, env, c).0)
  {
    var r := Schedule(p, env, c).0;
    ScheduleKeepsLatest(p, env, c);
    ScheduleKeepsSpacing(p, env, c);
    forall k | 0 <= k < |p| && Separate(p[k]) ensures NoTwins(r.queue, k) { ScheduleKeepsApart(p, env, c, k); }
    AddedIs(p, env, c);
    QueueAfter(p, env, c);
    if Added(p, env, c).Some? { AddedIsInTheFuture(p, env, c); }
    if forall k | 0 <= k < |p| :: Forward(p[k]) {
      forall e | e in r.queue ensures Before(r.current, e.tag) {
        var i :| 0 <= i < |r.queue| && r.queue[i] == e;
        assert OldOrNew(p, env, c, e);
        if Taken(env.queue, e.trigger, e.tag) {
          var j :| 0 <= j < |env.queue| && env.queue[j].trigger == e.trigger && env.queue[j].tag == e.tag;
          assert env.queue[j] in env.queue;
        }
      }
    }
  }

  lemma AdvanceKeeps(p: Program, env: Env, t: Tag)
    requires Inv(p, env) && Legal(p, env, Advance(t))
    ensures Inv(p, Next(p, env, Advance(t)))
  {
    var r := Next(p, env, Advance(t));
    KeptIs(env.queue, t, 0);
    forall k | 0 <= k < |p| && Separate(p[k]) ensures NoTwins(r.queue, k) { KeptIs(env.queue, t, k); }
    forall i | 0 <= i < |r.queue| && r.queue[i].trigger < |p| && Spaced(p[r.queue[i].trigger])
      ensures r.queue[i].trigger in r.last && r.queue[i].tag.time <= r.last[r.queue[i].trigger].time && NEVER < r.last[r.queue[i].trigger].time
    {
      assert r.queue[i] in r.queue;
      var j :| 0 <= j < |env.queue| && env.queue[j] == r.queue[i];
    }
  }

  /** Over any run: no two queued events of a separate action share a tag, the events of a spaced
      action are at least the spacing apart over the whole history, and every queued event lies
      strictly ahead if no logical action has spacing zero. */
  lemma {:induction false} RunKeeps(p: Program, envs: seq<Env>, ops: seq<Op>, n: nat)
    requires IsRun(p, envs, ops) && n < |envs|
    ensures Inv(p, envs[n])
  {
    if n > 0 {
      RunKeeps(p, envs, ops, n - 1);
      match ops[n - 1]
      case Do(c) => CallKeeps(p, envs[n - 1], c);
      case Lower(_) =>
      case Advance(t) => AdvanceKeeps(p, envs[n - 1], t);
    }
  }

  // ---- runs that show what fails ----

  const ZERO_SPACED := [Trigger(false, false, 0, 0, Defer)]

  /** With spacing zero a queued event can precede the current tag: a call without delay at (5, 0), the
      advance to its tag (5, 1), and a second call, deferred to (5, 0). */
  lemma ZeroSpacingGoesBack() returns (envs: seq<Env>, ops: seq<Op>)
    ensures IsRun(ZERO_SPACED, envs, ops) && |envs| == 4
    ensures envs[3].current == Tag(5, 1) && envs[3].queue == [Event(0, Tag(5, 0), 0)]
  {
    var c := Call(0, 0, 0, 0);
    var a, b := Event(0, Tag(5, 1), 0), Event(0, Tag(5, 0), 0);
    var e0 := Env(Tag(5, 0), FOREVER_TAG, Tag(5, 0), [], map[], 1, []);
    var e1 := Env(Tag(5, 0), FOREVER_TAG, Tag(5, 0), [a], map[0 := Tag(5, 1)], 2, [a]);
    var e2 := e1.(current := Tag(5, 1), queue := []);
    var e3 := Env(Tag(5, 1), FOREVER_TAG, Tag(5, 0), [b], map[0 := Tag(5, 0)], 3, [a, b]);
    ops := [Do(c), Advance(Tag(5, 1)), Do(c)];
    envs := [e0, e1, e2, e3];
    assert Next(ZERO_SPACED, e0, Do(c)) == e1;
    assert Next(ZERO_SPACED, e1, Advance(Tag(5, 1))) == e2;
    assert Next(ZERO_SPACED, e2, Do(c)) == e3;
  }

  const UPDATED := [Trigger(false, false, 0, 5, Update)]

  /** With the update policy two events of an action can meet: three calls at (4, 0), for 10, 20 and 10
      again. The third withdraws the event at 20 and lands on the one at 10. */
  lemma UpdateCanTwin() returns (envs: seq<Env>, ops: seq<Op>)
    ensures IsRun(UPDATED, envs, ops) && |envs| == 4 && !NoTwins(envs[3].queue, 0)
  {
    var a, b := Event(0, Tag(10, 0), 1), Event(0, Tag(20, 0), 2);
    var d := Event(0, Tag(10, 0), 3);
    ops := [Do(Call(0, 6, 1, 0)), Do(Call(0, 16, 2, 0)), Do(Call(0, 6, 3, 0))];
    var e0 := Env(Tag(4, 0), FOREVER_TAG, Tag(0, 0), [], map[], 1, []);
    var e1 := e0.(queue := [a], last := map[0 := a.tag], handle := 2, inserted := [a]);
    var e2 := e0.(queue := [a, b], last := map[0 := b.tag], handle := 3, inserted := [a, b]);
    var e3 := e0.(queue := [a, d], last := map[0 := d.tag], handle := 4, inserted := [a, b, d]);
    envs := [e0, e1, e2, e3];
    assert Schedule(UPDATED, e0, Call(0, 6, 1, 0)).0 == e1;
    assert Schedule(UPDATED, e1, Call(0, 16, 2, 0)).0 == e2;
    assert Schedule(UPDATED, e2, Call(0, 6, 3, 0)).0 == e3 by { WithdrawAndMeet(e2, a, b, d); }
    assert e3.queue[0].tag == e3.queue[1].tag;
  }

  lemma WithdrawAndMeet(env: Env, a: Event, b: Event, d: Event)
    requires a == Event(0, Tag(10, 0), 1) && b == Event(0, Tag(20, 0), 2) && d == Event(0, Tag(10, 0), 3)
    requires env == Env(Tag(4, 0), FOREVER_TAG, Tag(0, 0), [a, b], map[0 := b.tag], 3, [a, b])
    ensures Schedule(UPDATED, env, Call(0, 6, 3, 0)).0 ==
            env.(queue := [a, d], last := map[0 := d.tag], handle := 4, inserted := [a, b, d])
  {
    assert [a, b][1..] == [b] && [b][1..] == [];
    assert RemoveAt([b], 0, b.tag) == [] && RemoveAt([a, b], 0, b.tag) == [a];
  }
}
