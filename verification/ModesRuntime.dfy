/** The mode bookkeeping of an environment, updated in place and proved against Modes. */
module ModesRuntime {
  import opened Wrappers
  import opened Modes
  import opened ModesTheorems

  /** A startup or reset reaction and the mode it belongs to, if any. */
  datatype Reaction = Reaction(id: nat, mode: Option<nat>)

  ghost function Ids(reactions: seq<Reaction>, modes: set<nat>, n: nat): set<nat>
    requires n <= |reactions|
  {
    set i | 0 <= i < n && reactions[i].mode.Some? && reactions[i].mode.value in modes :: reactions[i].id
  }

  /** pqueue_tag_remove of one event. */
  function RemoveOne(q: seq<Event>, e: Event): (r: seq<Event>)
    requires e in q
    ensures multiset(r) == multiset(q) - multiset{e}
  {
    assert q == [q[0]] + q[1..];
    if q[0] == e then q[1..] else [q[0]] + RemoveOne(q[1..], e)
  }

  class Modal {
    const h: Hierarchy
    var current: seq<nat>
    var next: seq<Option<nat>>
    var change: seq<Change>
    var flags: seq<Flags>
    var left: seq<int>
    var startup: bool
    var reset: bool
    var queue: seq<Event>         // event_q, in heap order
    var suspended: seq<Event>     // the list of suspended events, latest first
    var queued: set<nat>          // reactions whose status is not inactive

    ghost predicate Valid()
      reads this
    {
      && h.Valid() && PlanShaped(h, PlanOf()) && Shaped(h, StatusOf())
    }

    ghost function PlanOf(): Plan
      reads this
    {
      Plan(next, change)
    }

    ghost function StatusOf(): Status
      reads this
    {
      Status(current, flags, left, startup, reset)
    }

    /** The generated initial state: every reactor in its initial mode, nothing flagged. */
    constructor (hierarchy: Hierarchy)
      requires hierarchy.Valid()
      ensures h == hierarchy && Valid() && PlanOf() == Begin(h).plan && current == h.initial && flags == Unset(h)
      ensures left == seq(|h.owner|, _ => 0) && !startup && !reset
    {
      h := hierarchy;
      current, flags, left := hierarchy.initial, Unset(hierarchy), seq(|hierarchy.owner|, _ => 0);
      next, change := seq(|hierarchy.parent|, _ => None), seq(|hierarchy.parent|, _ => NoTransition);
      startup, reset, queue, suspended, queued := false, false, [], [], {};
    }

    /** _lf_mode_is_active_fallback: the walk ends, and decides activity. */
    method IsActiveFallback(mode: Option<nat>) returns (active: bool)
      requires Valid() && (mode.Some? ==> mode.value < |h.owner|)
      ensures active <==> mode.None? || Active(h, current, mode.value)
    {
      if mode.None? { return true; }
      var m: nat := mode.value;
      while true
        invariant m < |h.owner| && (Active(h, current, mode.value) <==> Active(h, current, m))
        decreases h.owner[m]
      {
        var i := h.owner[m];
        if current[i] != m { return false; }
        if h.parent[i].None? { return true; }
        m := h.parent[i].value;
      }
    }

    /** _lf_initialize_mode_states. */
    method Initialize()
      requires Valid()
      modifies this`flags, this`startup
      ensures Valid() && flags == InitFlags(h, current, old(flags), |h.parent|) && startup
    {
      var i := 0;
      while i < |h.parent|
        invariant i <= |h.parent| && |flags| == |h.owner| && flags == InitFlags(h, current, old(flags), i)
      {
        if h.parent[i].None? || flags[h.parent[i].value].active {
          var m := current[i];
          flags := flags[m := flags[m].(active := true, needsStartup := true)];
        }
        i := i + 1;
      }
      startup := true;
    }

    /** Triggering the reactions of one kind: those of the given modes that are not queued yet. */
    method TriggerAll(reactions: seq<Reaction>, forReset: bool)
      requires Valid() && forall i | 0 <= i < |reactions| && reactions[i].mode.Some? :: reactions[i].mode.value < |h.owner|
      requires if forReset then reset else startup
      modifies this`queued
      ensures queued == old(queued) + Ids(reactions, if forReset then Resets(StatusOf()) else StartsUp(StatusOf()), |reactions|)
    {
      var i := 0;
      ghost var modes := if forReset then Resets(StatusOf()) else StartsUp(StatusOf());
      while i < |reactions|
        invariant i <= |reactions| && queued == old(queued) + Ids(reactions, modes, i)
      {
        var r := reactions[i];
        ghost var before := Ids(reactions, modes, i);
        if r.mode.Some? {
          var f := flags[r.mode.value];
          if r.id !in queued && f.active && (if forReset then f.needsReset else f.needsStartup) {
            queued := queued + {r.id};
          }
        }
        assert Ids(reactions, modes, i + 1) == before + if r.mode.Some? && r.mode.value in modes then {r.id} else {};
        i := i + 1;
      }
    }

    /** _lf_handle_mode_startup_reset_reactions. */
    method HandleStartupReset(startups: seq<Reaction>, resets: seq<Reaction>)
      requires Valid()
      requires forall i | 0 <= i < |startups| && startups[i].mode.Some? :: startups[i].mode.value < |h.owner|
      requires forall i | 0 <= i < |resets| && resets[i].mode.Some? :: resets[i].mode.value < |h.owner|
      modifies this`flags, this`startup, this`reset, this`queued
      ensures Valid() && StatusOf() == Handle(h, old(StatusOf()))
      ensures queued == old(queued) + Ids(startups, StartsUp(old(StatusOf())), |startups|)
                        + Ids(resets, Resets(old(StatusOf())), |resets|)
    {
      ghost var s := StatusOf();
      if startup { TriggerAll(startups, false); } else { assert StartsUp(s) == {}; }
      assert queued == old(queued) + Ids(startups, StartsUp(s), |startups|);
      if reset { TriggerAll(resets, true); } else { assert Resets(s) == {}; }
      assert queued == old(queued) + Ids(startups, StartsUp(s), |startups|) + Ids(resets, Resets(s), |resets|);
      ClearFlags(s);
      startup, reset := false, false;
    }

    method ClearFlags(ghost s: Status)
      requires Valid() && s == StatusOf()
      modifies this`flags
      ensures flags == HandleFlags(h, s, |h.parent|)
    {
      var i := 0;
      while i < |h.parent|
        invariant i <= |h.parent| && flags == HandleFlags(h, s, i)
      {
        var m := current[i];
        if flags[m].active {
          if flags[m].needsStartup { flags := flags[m := flags[m].(hadStartup := true, needsStartup := false)]; }
          flags := flags[m := flags[m].(needsReset := false)];
        }
        i := i + 1;
      }
    }

    /** The hierarchical reset of reactor i, at the head of the first loop. */
    method CascadeReactor(i: nat, ghost p: Plan)
      requires h.Valid() && PlanShaped(h, p) && i < |h.parent| && PlanOf() == Cascade(h, p, i)
      modifies this`next, this`change
      ensures PlanOf() == Cascade(h, p, i + 1)
      ensures |next| == |old(next)| && forall j | 0 <= j < |next| && j != i :: next[j] == old(next)[j] && change[j] == old(change)[j]
    {
      if h.parent[i].Some? {
        var m := h.parent[i].value;
        if next[h.owner[m]] == Some(m) && change[h.owner[m]] == Reset {
          next := next[i := Some(h.initial[i])];
          change := change[i := Reset];
        }
      }
    }

    /** The walk over the suspended list for the mode being entered. */
    method TakeOff(m: Option<nat>, kind: Change, moved: bool) returns (picked: seq<Event>)
      modifies this`suspended
      ensures suspended == Without(old(suspended), m) && picked == Picked(old(suspended), m, kind, moved)
    {
      var kept: seq<Event> := [];
      picked := [];
      var i := |suspended|;
      while i > 0
        invariant 0 <= i <= |suspended| && suspended == old(suspended)
        invariant kept == Without(suspended[i..], m) && picked == Picked(suspended[i..], m, kind, moved)
      {
        i := i - 1;
        var e := suspended[i];
        assert suspended[i..][1..] == suspended[i + 1..] && suspended[i..][0] == e;
        if e.mode == m {
          if if kind == Reset then e.isTimer else moved { picked := [e] + picked; }
        } else {
          kept := [e] + kept;
        }
      }
      assert suspended[0..] == suspended;
      suspended := kept;
    }

    /** The timers of period 0 of a mode entered by reset. */
    method FindOneShots(timers: seq<Event>, m: Option<nat>, kind: Change) returns (found: seq<Event>)
      ensures found == OneShots(timers, m, kind)
    {
      found := [];
      if kind != Reset { return; }
      var j := |timers|;
      while j > 0
        invariant 0 <= j <= |timers| && found == OneShots(timers[j..], m, kind)
      {
        j := j - 1;
        assert timers[j..][1..] == timers[j + 1..];
        if timers[j].mode == m { found := [timers[j]] + found; }
      }
      assert timers[0..] == timers;
    }

    /** One reactor of the first loop of _lf_process_mode_changes; handed goes to the scheduler. */
    method DetectChange(i: nat, timers: seq<Event>, ghost p: Plan) returns (entered: bool, handed: seq<Event>)
      requires h.Valid() && PlanShaped(h, p) && i < |h.parent| == |current| && PlanOf() == Cascade(h, p, i)
      modifies this`next, this`change, this`suspended
      ensures PlanOf() == Cascade(h, p, i + 1) && entered == next[i].Some?
      ensures |next| == |old(next)| && forall j | 0 <= j < |next| && j != i :: next[j] == old(next)[j] && change[j] == old(change)[j]
      ensures suspended == if entered then Without(old(suspended), next[i]) else old(suspended)
      ensures handed == if entered
                        then OneShots(timers, next[i], change[i])
                             + Picked(old(suspended), next[i], change[i], next[i] != Some(current[i]))
                        else []
    {
      handed := [];
      CascadeReactor(i, p);
      entered := next[i].Some?;
      if entered {
        var shots := FindOneShots(timers, next[i], change[i]);
        var picked := TakeOff(next[i], change[i], next[i] != Some(current[i]));
        handed := shots + picked;
      }
    }

    /** The whole loop. */
    method DetectChanges(timers: seq<Event>) returns (transition: bool, handed: seq<Event>)
      requires Valid()
      modifies this`next, this`change, this`suspended
      ensures Valid() && PlanOf() == Cascade(h, old(PlanOf()), |h.parent|) && transition == AnyTransition(PlanOf())
      ensures suspended == Remaining(next, old(suspended), |h.parent|)
      ensures handed == Handed(PlanOf(), current, timers, old(suspended), |h.parent|)
    {
      transition, handed := false, [];
      var i := 0;
      ghost var p := PlanOf();
      while i < |h.parent|
        invariant i <= |h.parent| && PlanOf() == Cascade(h, p, i)
        invariant Detected(PlanOf(), current, timers, old(suspended), i, transition, suspended, handed)
      {
        ghost var was, left := PlanOf(), suspended;
        var entered, more := DetectChange(i, timers, p);
        DetectedMore(was, PlanOf(), current, timers, old(suspended), i, transition, left, handed, entered, suspended, more);
        transition, handed := transition || entered, handed + more;
        i := i + 1;
      }
    }

    /** The second loop. */
    method ApplyChanges(now: int)
      requires Valid()
      modifies this`current, this`next, this`change, this`flags, this`left, this`startup, this`reset
      ensures Valid() && StatusOf() == Apply(h, old(PlanOf()), old(StatusOf()), now, |h.parent|)
      ensures PlanOf() == Cleared(old(PlanOf()), |h.parent|)
    {
      ghost var p, s := PlanOf(), StatusOf();
      var i := 0;
      while i < |h.parent|
        invariant i <= |h.parent| && Valid() && PlanOf() == Cleared(p, i) && StatusOf() == Apply(h, p, s, now, i)
      {
        ApplyOneReactor(now, i, p);
        i := i + 1;
      }
    }

    method ApplyOneReactor(now: int, i: nat, ghost p: Plan)
      requires Valid() && i < |h.parent| && PlanShaped(h, p) && PlanOf() == Cleared(p, i)
      modifies this`current, this`next, this`change, this`flags, this`left, this`startup, this`reset
      ensures Valid() && StatusOf() == ApplyOne(h, p, old(StatusOf()), now, i) && PlanOf() == Cleared(p, i + 1)
    {
      MoveReactor(now, i, p);
      RefreshReactor(i);
    }

    method MoveReactor(now: int, i: nat, ghost p: Plan)
      requires Valid() && i < |h.parent| && PlanShaped(h, p) && PlanOf() == Cleared(p, i)
      modifies this`current, this`next, this`change, this`flags, this`left
      ensures Valid() && StatusOf() == Move(h, p, old(StatusOf()), now, i) && PlanOf() == Cleared(p, i + 1)
    {
      var was := current[i];
      flags := flags[was := flags[was].(active := false)];
      if next[i].Some? {
        left := left[was := now];
        var m := next[i].value;
        current := current[i := m];
        var f := flags[m];
        if !f.hadStartup { f := f.(needsStartup := true); }
        flags := flags[m := f.(needsReset := change[i] == Reset)];
        next := next[i := None];
        change := change[i := NoTransition];
      }
    }

    method RefreshReactor(i: nat)
      requires Valid() && i < |h.parent|
      modifies this`flags, this`startup, this`reset
      ensures Valid() && StatusOf() == Refresh(h, old(StatusOf()), i)
    {
      if h.parent[i].None? || flags[h.parent[i].value].active {
        var m := current[i];
        flags := flags[m := flags[m].(active := true)];
        startup := startup || flags[m].needsStartup;
        reset := reset || flags[m].needsReset;
      }
    }

    /** The scan for events of inactive modes. */
    method FindInactive() returns (removal: seq<Event>)
      requires Valid() && forall e | e in queue && e.mode.Some? :: e.mode.value < |h.owner|
      modifies this`suspended
      ensures removal == Suspended(flags, queue) && suspended == Reversed(removal) + old(suspended)
    {
      removal := [];
      var i := 0;
      while i < |queue|
        invariant i <= |queue| && removal == Suspended(flags, queue[..i]) && suspended == Reversed(removal) + old(suspended)
      {
        var e := queue[i];
        assert queue[..i + 1][..i] == queue[..i];
        if e.mode.Some? && !flags[e.mode.value].active {
          assert (removal + [e])[..|removal|] == removal;
          removal := removal + [e];
          suspended := [e] + suspended;
        }
        i := i + 1;
      }
      assert queue[..i] == queue;
    }

    /** The delayed removal. */
    method RemoveAll(removal: seq<Event>)
      requires multiset(removal) <= multiset(queue)
      modifies this`queue
      ensures multiset(queue) == multiset(old(queue)) - multiset(removal)
    {
      var i := 0;
      while i < |removal|
        invariant i <= |removal| && multiset(queue) == multiset(old(queue)) - multiset(removal[..i])
      {
        StillThere(old(queue), removal, i, queue);
        queue := RemoveOne(queue, removal[i]);
        i := i + 1;
      }
      assert removal[..i] == removal;
    }

    /** Retraction: the events of inactive modes move from the queue to the suspended list. */
    method Retract()
      requires Valid() && forall e | e in queue && e.mode.Some? :: e.mode.value < |h.owner|
      modifies this`queue, this`suspended
      ensures Retracted(flags, old(queue), queue)
      ensures suspended == Reversed(Suspended(flags, old(queue))) + old(suspended)
    {
      ghost var q := queue;
      SuspendedAre(flags, q);
      var removal := FindInactive();
      RemoveAll(removal);
      forall e | e in queue && e.mode.Some? ensures e.mode.value < |h.owner| && flags[e.mode.value].active {
        assert e in multiset(queue) && e in multiset(q);
        assert !Suspends(flags, e);
      }
    }

    /** _lf_process_mode_changes. timers are the timers of period 0; back says what the scheduler queues
        for an event it is handed; dummy is the event that makes startup and reset reactions run next. */
    method ProcessChanges(now: int, timers: seq<Event>, back: Event -> seq<Event>, dummy: Event)
      returns (transition: bool, handed: seq<Event>)
      requires Valid() && dummy.mode.None?
      requires forall e, f | f in back(e) :: f.mode == e.mode
      requires forall e | e in queue + suspended + timers && e.mode.Some? :: e.mode.value < |h.owner|
      modifies this`current, this`next, this`change, this`flags, this`left, this`startup, this`reset, this`queue, this`suspended
      ensures Valid() && (PlanOf(), StatusOf()) == Process(h, old(PlanOf()), old(StatusOf()), now)
      ensures transition == AnyTransition(Cascade(h, old(PlanOf()), |h.parent|))
      ensures handed == Handed(Cascade(h, old(PlanOf()), |h.parent|), old(current), timers, old(suspended), |h.parent|)
      ensures var before := old(queue) + Requeued(back, handed);
        var kept := Remaining(Cascade(h, old(PlanOf()), |h.parent|).next, old(suspended), |h.parent|);
        if transition then
          && suspended == Reversed(Suspended(flags, before)) + kept
          && (if startup || reset then queue != [] && queue[|queue| - 1] == dummy && Retracted(flags, before, queue[..|queue| - 1])
              else Retracted(flags, before, queue))
        else queue == before && suspended == kept
    {
      transition, handed := DetectChanges(timers);
      HandedModes(h, PlanOf(), current, timers, old(suspended), handed);
      RequeuedModes(back, handed, |h.owner|);
      Reschedule(back, handed);
      if transition {
        ApplyChanges(now);
        Retract();
        if startup || reset { queue := queue + [dummy]; }
      }
    }

    /** The scheduler's calls, in order. */
    method Reschedule(back: Event -> seq<Event>, handed: seq<Event>)
      modifies this`queue
      ensures queue == old(queue) + Requeued(back, handed)
    {
      for i := 0 to |handed|
        invariant queue == old(queue) + Requeued(back, handed[..i])
      {
        assert handed[..i + 1][..i] == handed[..i];
        queue := queue + back(handed[i]);
      }
      assert handed[..|handed|] == handed;
    }
  }

  /** Events handed over have a mode of the hierarchy if those they come from have. */
  lemma HandedModes(h: Hierarchy, p: Plan, current: seq<nat>, timers: seq<Event>, suspended: seq<Event>, handed: seq<Event>)
    requires h.Valid() && PlanShaped(h, p) && |current| == |h.parent|
    requires handed == Handed(p, current, timers, suspended, |h.parent|)
    ensures forall e | e in handed && e.mode.Some? :: e.mode.value < |h.owner|
  {
    forall e | e in handed && e.mode.Some? ensures e.mode.value < |h.owner| {
      HandedIff(h, p, current, timers, suspended, |h.parent|, e);
      var i :| 0 <= i < |h.parent| && HandsOver(p, current, timers, suspended, e, i);
    }
  }

  lemma {:induction false} RequeuedModes(back: Event -> seq<Event>, handed: seq<Event>, n: nat)
    requires forall e, f | f in back(e) :: f.mode == e.mode
    requires forall e | e in handed && e.mode.Some? :: e.mode.value < n
    ensures forall e | e in Requeued(back, handed) && e.mode.Some? :: e.mode.value < n
  {
    if handed != [] { RequeuedModes(back, handed[..|handed| - 1], n); }
  }

  lemma {:induction false} HandedFrame(a: Plan, b: Plan, current: seq<nat>, timers: seq<Event>, suspended: seq<Event>, n: nat)
    requires |a.next| == |a.change| == |b.next| == |b.change| == |current| && n <= |a.next|
    requires forall i | 0 <= i < n :: a.next[i] == b.next[i] && a.change[i] == b.change[i]
    ensures Handed(a, current, timers, suspended, n) == Handed(b, current, timers, suspended, n)
  {
    if n > 0 {
      HandedFrame(a, b, current, timers, suspended, n - 1);
      RemainingFrame(a.next, b.next, suspended, n - 1);
    }
  }

  lemma HandedMore(p: Plan, current: seq<nat>, timers: seq<Event>, suspended: seq<Event>, i: nat, handed: seq<Event>, more: seq<Event>)
    requires |p.next| == |p.change| == |current| && i < |p.next| && handed == Handed(p, current, timers, suspended, i)
    requires more == if p.next[i].Some?
                     then OneShots(timers, p.next[i], p.change[i])
                          + Picked(Remaining(p.next, suspended, i), p.next[i], p.change[i], p.next[i] != Some(current[i]))
                     else []
    ensures handed + more == Handed(p, current, timers, suspended, i + 1)
  {
  }

  /** The queue after retraction: nothing lost, and nothing of an inactive mode left. */
  ghost predicate Retracted(flags: seq<Flags>, before: seq<Event>, queue: seq<Event>) {
    && multiset(before) == multiset(queue) + multiset(Suspended(flags, before))
    && forall e | e in queue && e.mode.Some? :: e.mode.value < |flags| && flags[e.mode.value].active
  }

  lemma StillThere(q: seq<Event>, removal: seq<Event>, i: nat, queue: seq<Event>)
    requires i < |removal| && multiset(removal) <= multiset(q) && multiset(queue) == multiset(q) - multiset(removal[..i])
    ensures removal[i] in queue
    ensures multiset(queue) - multiset{removal[i]} == multiset(q) - multiset(removal[..i + 1])
  {
    var e := removal[i];
    assert removal == removal[..i + 1] + removal[i + 1..];
    assert removal[..i + 1] == removal[..i] + [e];
    assert multiset(removal[..i + 1]) == multiset(removal[..i]) + multiset{e};
    assert multiset(removal)[e] >= multiset(removal[..i])[e] + 1;
    assert e in multiset(queue);
  }

  /** The first loop of _lf_process_mode_changes after i reactors. */
  ghost predicate Detected(p: Plan, current: seq<nat>, timers: seq<Event>, suspended: seq<Event>, i: nat,
                           transition: bool, left: seq<Event>, handed: seq<Event>)
  {
    && |p.next| == |p.change| == |current| && i <= |p.next|
    && transition == AnyBelow(p.next, i) && left == Remaining(p.next, suspended, i)
    && handed == Handed(p, current, timers, suspended, i)
  }

  lemma DetectedMore(a: Plan, b: Plan, current: seq<nat>, timers: seq<Event>, suspended: seq<Event>, i: nat,
                     transition: bool, left: seq<Event>, handed: seq<Event>, entered: bool, left': seq<Event>, more: seq<Event>)
    requires Detected(a, current, timers, suspended, i, transition, left, handed)
    requires |b.next| == |b.change| == |a.next| && i < |b.next|
    requires forall j | 0 <= j < |b.next| && j != i :: b.next[j] == a.next[j] && b.change[j] == a.change[j]
    requires entered == b.next[i].Some? && left' == (if entered then Without(left, b.next[i]) else left)
    requires more == if entered
                     then OneShots(timers, b.next[i], b.change[i]) + Picked(left, b.next[i], b.change[i], b.next[i] != Some(current[i]))
                     else []
    ensures Detected(b, current, timers, suspended, i + 1, transition || entered, left', handed + more)
  {
    RemainingFrame(a.next, b.next, suspended, i);
    HandedFrame(a, b, current, timers, suspended, i);
    AnyBelowFrame(a.next, b.next, i);
    HandedMore(b, current, timers, suspended, i, handed, more);
  }

  ghost predicate AnyBelow(next: seq<Option<nat>>, n: nat) { exists j :: 0 <= j < n && j < |next| && next[j].Some? }

  lemma AnyBelowFrame(a: seq<Option<nat>>, b: seq<Option<nat>>, n: nat)
    requires n < |a| == |b| && forall i | 0 <= i < |a| && i != n :: b[i] == a[i]
    ensures AnyBelow(b, n + 1) == (AnyBelow(a, n) || b[n].Some?)
  {
    if AnyBelow(a, n) {
      var j :| 0 <= j < n && j < |a| && a[j].Some?;
      assert b[j].Some?;
    }
  }

  lemma {:induction false} RemainingFrame(a: seq<Option<nat>>, b: seq<Option<nat>>, suspended: seq<Event>, n: nat)
    requires n <= |a| == |b| && forall i | 0 <= i < n :: a[i] == b[i]
    ensures Remaining(a, suspended, n) == Remaining(b, suspended, n)
  {
    if n > 0 { RemainingFrame(a, b, suspended, n - 1); }
  }
}
