/** Modal reactors (core/modal_models/modes.c): activity flags, transitions, startup and reset. */
module Modes {
  import opened Wrappers

  /** The static part: owner gives the reactor of each mode, parent the enclosing mode of each modal
      reactor, initial its initial mode. Reactors are listed enclosing ones first. */
  datatype Hierarchy = Hierarchy(owner: seq<nat>, parent: seq<Option<nat>>, initial: seq<nat>) {
    ghost predicate Valid() {
      && |initial| == |parent|
      && (forall m | 0 <= m < |owner| :: owner[m] < |parent|)
      && (forall i | 0 <= i < |parent| && parent[i].Some? :: parent[i].value < |owner| && owner[parent[i].value] < i)
      && (forall i | 0 <= i < |initial| :: initial[i] < |owner| && owner[initial[i]] == i)
    }
  }

  datatype Change = NoTransition | Reset | History

  datatype Flags = Flags(active: bool, needsStartup: bool, hadStartup: bool, needsReset: bool)

  /** The transitions asked for: next_mode and mode_change of each reactor. */
  datatype Plan = Plan(next: seq<Option<nat>>, change: seq<Change>)

  /** current_mode of each reactor, flags and deactivation_time of each mode, and the request bits. */
  datatype Status = Status(current: seq<nat>, flags: seq<Flags>, left: seq<int>, startup: bool, reset: bool)

  predicate PlanShaped(h: Hierarchy, p: Plan) {
    && |p.next| == |p.change| == |h.parent|
    && forall i | 0 <= i < |p.next| && p.next[i].Some? :: p.next[i].value < |h.owner| && h.owner[p.next[i].value] == i
  }

  /** Every reactor is in one of its own modes. */
  predicate InOwnModes(h: Hierarchy, current: seq<nat>) {
    && |current| == |h.parent|
    && forall i | 0 <= i < |current| :: current[i] < |h.owner| && h.owner[current[i]] == i
  }

  predicate Shaped(h: Hierarchy, s: Status) {
    InOwnModes(h, s.current) && |s.flags| == |h.owner| && |s.left| == |h.owner|
  }

  /** The definition of activity: the mode is current in its reactor, and so are all modes around it. */
  ghost predicate Active(h: Hierarchy, current: seq<nat>, m: nat)
    requires h.Valid() && InOwnModes(h, current) && m < |h.owner|
    decreases h.owner[m]
  {
    && current[h.owner[m]] == m
    && (h.parent[h.owner[m]].None? || Active(h, current, h.parent[h.owner[m]].value))
  }

  /** _lf_mode_is_active. */
  predicate Cached(flags: seq<Flags>, m: Option<nat>)
    requires m.Some? ==> m.value < |flags|
  {
    m.None? || flags[m.value].active
  }

  // ---- initialization ----

  function InitFlags(h: Hierarchy, current: seq<nat>, flags: seq<Flags>, n: nat): (r: seq<Flags>)
    requires h.Valid() && InOwnModes(h, current) && |flags| == |h.owner| && n <= |current|
    ensures |r| == |flags|
  {
    if n == 0 then flags
    else
      var f := InitFlags(h, current, flags, n - 1);
      if Cached(f, h.parent[n - 1])
      then f[current[n - 1] := f[current[n - 1]].(active := true, needsStartup := true)] else f
  }

  // ---- transitions ----

  predicate EntersByReset(h: Hierarchy, p: Plan, m: Option<nat>)
    requires h.Valid() && PlanShaped(h, p) && (m.Some? ==> m.value < |h.owner|)
  {
    m.Some? && p.next[h.owner[m.value]] == m && p.change[h.owner[m.value]] == Reset
  }

  /** The first loop of _lf_process_mode_changes on the first n reactors: reset cascades inwards. */
  function Cascade(h: Hierarchy, p: Plan, n: nat): (r: Plan)
    requires h.Valid() && PlanShaped(h, p) && n <= |h.parent|
    ensures PlanShaped(h, r)
  {
    if n == 0 then p
    else
      var q := Cascade(h, p, n - 1);
      if EntersByReset(h, q, h.parent[n - 1])
      then Plan(q.next[n - 1 := Some(h.initial[n - 1])], q.change[n - 1 := Reset]) else q
  }

  predicate AnyTransition(p: Plan) { exists i :: 0 <= i < |p.next| && p.next[i].Some? }

  function Entered(f: Flags, change: Change): Flags {
    f.(needsStartup := f.needsStartup || !f.hadStartup, needsReset := change == Reset)
  }

  /** Leaving the current mode of reactor i, and entering its next one if there is one. */
  function Move(h: Hierarchy, p: Plan, s: Status, now: int, i: nat): (r: Status)
    requires h.Valid() && PlanShaped(h, p) && Shaped(h, s) && i < |h.parent|
    ensures Shaped(h, r)
  {
    var was := s.current[i];
    var f := s.flags[was := s.flags[was].(active := false)];
    if p.next[i].None? then s.(flags := f)
    else
      var m := p.next[i].value;
      s.(current := s.current[i := m], left := s.left[was := now], flags := f[m := Entered(f[m], p.change[i])])
  }

  /** Recomputing the cached activity of reactor i's current mode. */
  function Refresh(h: Hierarchy, s: Status, i: nat): (r: Status)
    requires h.Valid() && Shaped(h, s) && i < |h.parent|
    ensures Shaped(h, r)
  {
    if Cached(s.flags, h.parent[i]) then
      var m := s.current[i];
      s.(flags := s.flags[m := s.flags[m].(active := true)],
         startup := s.startup || s.flags[m].needsStartup, reset := s.reset || s.flags[m].needsReset)
    else s
  }

  function ApplyOne(h: Hierarchy, p: Plan, s: Status, now: int, i: nat): (r: Status)
    requires h.Valid() && PlanShaped(h, p) && Shaped(h, s) && i < |h.parent|
    ensures Shaped(h, r)
  {
    Refresh(h, Move(h, p, s, now, i), i)
  }

  /** The second loop of _lf_process_mode_changes on the first n reactors. */
  function Apply(h: Hierarchy, p: Plan, s: Status, now: int, n: nat): (r: Status)
    requires h.Valid() && PlanShaped(h, p) && Shaped(h, s) && n <= |h.parent|
    ensures Shaped(h, r)
  {
    if n == 0 then s else ApplyOne(h, p, Apply(h, p, s, now, n - 1), now, n - 1)
  }

  function Cleared(p: Plan, n: nat): (r: Plan)
    requires |p.next| == |p.change| && n <= |p.next|
    ensures |r.next| == |r.change| == |p.next|
    ensures forall i | 0 <= i < |p.next| :: r.next[i] == if i < n then None else p.next[i]
    ensures forall i | 0 <= i < |p.next| :: r.change[i] == if i < n && p.next[i].Some? then NoTransition else p.change[i]
  {
    if n == 0 then p
    else
      var q := Cleared(p, n - 1);
      if q.next[n - 1].Some? then Plan(q.next[n - 1 := None], q.change[n - 1 := NoTransition]) else q
  }

  /** Plan and status after a transition step. */
  function Process(h: Hierarchy, p: Plan, s: Status, now: int): (r: (Plan, Status))
    requires h.Valid() && PlanShaped(h, p) && Shaped(h, s)
    ensures PlanShaped(h, r.0) && Shaped(h, r.1)
  {
    var q := Cascade(h, p, |h.parent|);
    if AnyTransition(q) then (Cleared(q, |h.parent|), Apply(h, q, s, now, |h.parent|)) else (q, s)
  }

  // ---- startup and reset reactions ----

  /** The modes whose startup (or reset) reactions a handler call triggers. */
  function StartsUp(s: Status): set<nat> {
    set m: nat | m < |s.flags| && s.startup && s.flags[m].active && s.flags[m].needsStartup
  }

  function Resets(s: Status): set<nat> {
    set m: nat | m < |s.flags| && s.reset && s.flags[m].active && s.flags[m].needsReset
  }

  function HandleFlags(h: Hierarchy, s: Status, n: nat): (r: seq<Flags>)
    requires h.Valid() && Shaped(h, s) && n <= |h.parent|
    ensures |r| == |s.flags|
  {
    if n == 0 then s.flags
    else
      var f := HandleFlags(h, s, n - 1);
      var m := s.current[n - 1];
      if f[m].active
      then f[m := Flags(true, false, f[m].hadStartup || f[m].needsStartup, false)] else f
  }

  function Handle(h: Hierarchy, s: Status): (r: Status)
    requires h.Valid() && Shaped(h, s)
    ensures Shaped(h, r)
  {
    s.(flags := HandleFlags(h, s, |h.parent|), startup := false, reset := false)
  }

  // ---- retraction ----

  /** mode is None for an event whose trigger is in no mode, or that has no trigger. */
  datatype Event = Event(id: nat, mode: Option<nat>, isTimer: bool)

  predicate Suspends(flags: seq<Flags>, e: Event) { e.mode.Some? && e.mode.value < |flags| && !flags[e.mode.value].active }

  function Suspended(flags: seq<Flags>, queue: seq<Event>): seq<Event> {
    if queue == [] then []
    else Suspended(flags, queue[..|queue| - 1]) + if Suspends(flags, queue[|queue| - 1]) then [queue[|queue| - 1]] else []
  }

  function Without(events: seq<Event>, m: Option<nat>): seq<Event> {
    if events == [] then []
    else if events[0].mode == m then Without(events[1..], m)
    else [events[0]] + Without(events[1..], m)
  }

  /** The suspended events left by the first n reactors: those of a mode entered are taken out. */
  function Remaining(next: seq<Option<nat>>, suspended: seq<Event>, n: nat): seq<Event>
    requires n <= |next|
  {
    if n == 0 then suspended
    else
      var s := Remaining(next, suspended, n - 1);
      if next[n - 1].Some? then Without(s, next[n - 1]) else s
  }

  /** The queue without the events of inactive modes. */
  function Surviving(flags: seq<Flags>, queue: seq<Event>): seq<Event> {
    if queue == [] then []
    else Surviving(flags, queue[..|queue| - 1]) + if Suspends(flags, queue[|queue| - 1]) then [] else [queue[|queue| - 1]]
  }

  function Reversed(s: seq<Event>): seq<Event> {
    if s == [] then [] else [s[|s| - 1]] + Reversed(s[..|s| - 1])
  }

  // ---- reactivation ----

  /** Of the suspended events of an entered mode, reset schedules the timers anew and drops the rest;
      history schedules all if the reactor really changes its mode. */
  predicate GoesBack(change: Change, moved: bool, e: Event) { if change == Reset then e.isTimer else moved }

  function Picked(events: seq<Event>, m: Option<nat>, change: Change, moved: bool): seq<Event> {
    if events == [] then []
    else
      var rest := Picked(events[1..], m, change, moved);
      if events[0].mode == m && GoesBack(change, moved, events[0]) then [events[0]] + rest else rest
  }

  /** The timers of period 0 of a mode entered by reset, which are not on any list. */
  function OneShots(timers: seq<Event>, m: Option<nat>, change: Change): seq<Event> {
    if timers == [] || change != Reset then []
    else (if timers[0].mode == m then [timers[0]] else []) + OneShots(timers[1..], m, change)
  }

  /** What the first n reactors hand to the scheduler, in order. */
  function Handed(p: Plan, current: seq<nat>, timers: seq<Event>, suspended: seq<Event>, n: nat): seq<Event>
    requires |p.next| == |p.change| == |current| && n <= |p.next|
  {
    if n == 0 then []
    else
      var before := Handed(p, current, timers, suspended, n - 1);
      var m := p.next[n - 1];
      if m.None? then before
      else before + OneShots(timers, m, p.change[n - 1])
           + Picked(Remaining(p.next, suspended, n - 1), m, p.change[n - 1], m != Some(current[n - 1]))
  }

  /** The events the scheduler queues for what it is handed; back says what it does with each. */
  function Requeued(back: Event -> seq<Event>, handed: seq<Event>): seq<Event> {
    if handed == [] then [] else Requeued(back, handed[..|handed| - 1]) + back(handed[|handed| - 1])
  }

  lemma {:induction false} SuspendedAre(flags: seq<Flags>, queue: seq<Event>)
    ensures forall e :: multiset(Suspended(flags, queue))[e] == if Suspends(flags, e) then multiset(queue)[e] else 0
  {
    if queue != [] {
      var init, e := queue[..|queue| - 1], queue[|queue| - 1];
      SuspendedAre(flags, init);
      assert queue == init + [e];
    }
  }
}
