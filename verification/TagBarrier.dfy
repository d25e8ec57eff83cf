/** The barrier on tag advancement (core/threaded/reactor_threaded.c): requestors keep the current tag
    below their tags, through one counter and one horizon. */
module TagBarrier {
  import opened Tags

  /** The advancing thread: free, or in the wait of _lf_wait_on_tag_barrier for a proposed tag. */
  datatype Pc = Free | Waiting(proposed: Tag)

  /** outstanding is the history variable: the effective tag of each requestor not yet released. */
  datatype State = State(
    current: Tag, stop: Tag, events: set<Tag>, requestors: int, horizon: Tag, pc: Pc, outstanding: seq<Tag>)

  // ---- raising and releasing ----

  function Capped(stop: Tag, t: Tag): Tag { if Before(stop, t) then stop else t }

  /** The tag a request holds back: its own if that is ahead, else the next microstep. */
  function Effective(current: Tag, stop: Tag, t: Tag): (r: Tag)
    ensures Before(current, r)
  {
    var u := Capped(stop, t);
    if Before(current, u) then u else NextMicrostep(current)
  }

  /** The horizon after _lf_increment_tag_barrier_locked. */
  function Raised(current: Tag, stop: Tag, horizon: Tag, t: Tag): Tag {
    var u := Capped(stop, t);
    if Before(current, u) then (if Before(u, horizon) then u else horizon) else NextMicrostep(current)
  }

  function RaiseStep(s: State, t: Tag): State {
    s.(horizon := Raised(s.current, s.stop, s.horizon, t), requestors := s.requestors + 1,
       outstanding := s.outstanding + [Effective(s.current, s.stop, t)])
  }

  /** _lf_decrement_tag_barrier_locked by the requestor at position i. */
  function ReleaseStep(s: State, i: nat): State
    requires i < |s.outstanding|
  {
    s.(requestors := s.requestors - 1, horizon := if s.requestors - 1 == 0 then FOREVER_TAG else s.horizon,
       outstanding := s.outstanding[..i] + s.outstanding[i + 1..])
  }

  // ---- advancing ----

  /** get_next_event_tag: the least queued tag, if any, and at most the stop tag. */
  ghost predicate IsNextTag(s: State, t: Tag) {
    && AtMost(t, s.stop) && (t == s.stop || t in s.events)
    && forall e | e in s.events :: AtMost(t, e)
  }

  function MoveTo(s: State, t: Tag): State {
    if Before(s.current, t) then s.(current := t, events := s.events - {t}, pc := Free) else s.(pc := Free)
  }

  /** Whether the wait goes on for a tag already capped. */
  predicate Blocked(s: State, t: Tag) { s.requestors > 0 && AtMost(s.horizon, t) }

  /** The first look at the barrier with the next tag t: the check for FOREVER comes before the horizon. */
  function StartStep(s: State, t: Tag): State {
    if s.requestors == 0 || t.time == FOREVER || !Blocked(s, t) then MoveTo(s, t) else s.(pc := Waiting(t))
  }

  /** A wake-up: the stop tag may have changed, and after the wait the next tag t is computed anew. */
  function WakeStep(s: State, t: Tag): State
    requires s.pc.Waiting?
  {
    var proposed := Capped(s.stop, s.pc.proposed);
    if Blocked(s, proposed) then s.(pc := Waiting(proposed)) else MoveTo(s, t)
  }

  datatype Step = Raise(t: Tag) | Release(i: nat) | LowerStop(t: Tag) | AddEvent(t: Tag) | Start(t: Tag) | Wake(t: Tag)

  /** Tags are in machine range; events are only added, and only ahead; the stop tag is only lowered. */
  ghost predicate Enabled(s: State, e: Step) {
    match e
    case Raise(t) => AtMost(t, FOREVER_TAG)
    case Release(i) => i < |s.outstanding|
    case LowerStop(t) => AtMost(t, s.stop)
    case AddEvent(t) => Before(s.current, t)
    case Start(t) => s.pc.Free? && IsNextTag(s, t)
    case Wake(t) => s.pc.Waiting? && IsNextTag(s, t)
  }

  ghost function Next(s: State, e: Step): State
    requires Enabled(s, e)
  {
    match e
    case Raise(t) => RaiseStep(s, t)
    case Release(i) => ReleaseStep(s, i)
    case LowerStop(t) => s.(stop := t)
    case AddEvent(t) => s.(events := s.events + {t})
    case Start(t) => StartStep(s, t)
    case Wake(t) => WakeStep(s, t)
  }

  /** A proposal of FOREVER while requestors are outstanding, which the barrier does not handle. */
  predicate ForeverProposal(s: State, e: Step) { e.Start? && s.requestors > 0 && e.t.time == FOREVER }

  ghost predicate Begins(s: State) {
    s.requestors == 0 && s.outstanding == [] && s.horizon == FOREVER_TAG && s.pc.Free?
  }

  ghost predicate IsRun(states: seq<State>, steps: seq<Step>) {
    && |states| == |steps| + 1 && Begins(states[0])
    && forall i | 0 <= i < |steps| :: Enabled(states[i], steps[i]) && states[i + 1] == Next(states[i], steps[i])
  }

  // ---- the invariant ----

  /** The current tag lies strictly below the effective tag of every outstanding requestor. */
  ghost predicate Held(s: State) { forall i | 0 <= i < |s.outstanding| :: Before(s.current, s.outstanding[i]) }

  ghost predicate Inv(s: State) {
    && s.requestors == |s.outstanding|
    && (s.requestors == 0 ==> s.horizon == FOREVER_TAG)
    && (s.requestors > 0 ==> Before(s.current, s.horizon))
    && (forall i | 0 <= i < |s.outstanding| :: AtMost(s.horizon, s.outstanding[i]))
    && (s.pc.Waiting? ==> forall t | IsNextTag(s, t) :: AtMost(t, s.pc.proposed))
  }

  lemma RaiseKeeps(s: State, t: Tag)
    requires Inv(s) && AtMost(t, FOREVER_TAG)
    ensures Inv(RaiseStep(s, t))
  {
    var r := RaiseStep(s, t);
    forall i | 0 <= i < |r.outstanding| ensures AtMost(r.horizon, r.outstanding[i]) {
      if i < |s.outstanding| { assert r.outstanding[i] == s.outstanding[i]; }
    }
    assert forall u :: IsNextTag(r, u) ==> IsNextTag(s, u);
  }

  lemma ReleaseKeeps(s: State, i: nat)
    requires Inv(s) && i < |s.outstanding|
    ensures Inv(ReleaseStep(s, i))
  {
    assert forall u :: IsNextTag(ReleaseStep(s, i), u) ==> IsNextTag(s, u);
  }

  /** Adding an event or lowering the stop tag only brings the next tag forward. */
  lemma NextTagOnlyDrops(s: State, r: State, t: Tag)
    requires s.events <= r.events && AtMost(r.stop, s.stop) && IsNextTag(r, t)
    requires s.pc.Waiting? && forall u | IsNextTag(s, u) :: AtMost(u, s.pc.proposed)
    ensures AtMost(t, s.pc.proposed)
  {
    var u := LeastTag(s.events, s.stop);
    assert IsNextTag(s, u);
  }

  ghost function LeastTag(events: set<Tag>, stop: Tag): (t: Tag)
    ensures AtMost(t, stop) && (t == stop || t in events) && forall e | e in events :: AtMost(t, e)
  {
    if events == {} then stop
    else
      var e :| e in events;
      var t := LeastTag(events - {e}, stop);
      assert forall x | x in events :: x == e || x in events - {e};
      if Before(e, t) then e else t
  }

  lemma WakeKeeps(s: State, t: Tag)
    requires Inv(s) && s.pc.Waiting? && IsNextTag(s, t)
    ensures Inv(WakeStep(s, t))
  {
    var proposed := Capped(s.stop, s.pc.proposed);
    if Blocked(s, proposed) {
      forall u | IsNextTag(WakeStep(s, t), u) ensures AtMost(u, proposed) { assert IsNextTag(s, u); }
    } else {
      assert AtMost(t, proposed);
    }
  }

  /** One step keeps the barrier, unless it is a FOREVER proposal. */
  lemma StepKeeps(s: State, e: Step)
    requires Inv(s) && Enabled(s, e) && !ForeverProposal(s, e)
    ensures Inv(Next(s, e))
  {
    match e
    case Raise(t) => RaiseKeeps(s, t);
    case Release(i) => ReleaseKeeps(s, i);
    case LowerStop(t) =>
      var r := Next(s, e);
      if s.pc.Waiting? { forall u | IsNextTag(r, u) ensures AtMost(u, r.pc.proposed) { NextTagOnlyDrops(s, r, u); } }
    case AddEvent(t) =>
      var r := Next(s, e);
      if s.pc.Waiting? { forall u | IsNextTag(r, u) ensures AtMost(u, r.pc.proposed) { NextTagOnlyDrops(s, r, u); } }
    case Start(t) =>
      var r := Next(s, e);
      if r.pc.Waiting? {
        forall u | IsNextTag(r, u) ensures AtMost(u, t) { assert IsNextTag(s, u); }
      }
    case Wake(t) => WakeKeeps(s, t);
  }

  lemma {:induction false} RunKeeps(states: seq<State>, steps: seq<Step>, n: nat)
    requires IsRun(states, steps) && n < |states|
    requires forall i | 0 <= i < n :: !ForeverProposal(states[i], steps[i])
    ensures Inv(states[n])
  {
    if n > 0 {
      RunKeeps(states, steps, n - 1);
      StepKeeps(states[n - 1], steps[n - 1]);
    }
  }

  // ---- the theorems ----

  /** Over any interleaving of requests, releases, stop-tag lowering, new events and advances without
      a FOREVER proposal, the current tag stays strictly below every outstanding requestor's tag. */
  lemma BarrierHolds(states: seq<State>, steps: seq<Step>, n: nat)
    requires IsRun(states, steps) && n < |states|
    requires forall i | 0 <= i < n :: !ForeverProposal(states[i], steps[i])
    ensures Held(states[n])
  {
    RunKeeps(states, steps, n);
    var s := states[n];
    forall i | 0 <= i < |s.outstanding| ensures Before(s.current, s.outstanding[i]) {
      assert AtMost(s.horizon, s.outstanding[i]);
    }
  }

  /** A step of such a run breaks the barrier exactly when it proposes FOREVER to an outstanding
      requestor at or before the proposed tag. */
  lemma BreaksIff(states: seq<State>, steps: seq<Step>, n: nat)
    requires IsRun(states, steps) && n < |steps|
    requires forall i | 0 <= i < n :: !ForeverProposal(states[i], steps[i])
    ensures !Held(states[n + 1]) <==>
            ForeverProposal(states[n], steps[n]) && exists r :: r in states[n].outstanding && AtMost(r, steps[n].t)
  {
    var s, e := states[n], steps[n];
    BarrierHolds(states, steps, n);
    if ForeverProposal(s, e) {
      if r :| r in s.outstanding && AtMost(r, e.t) {
        var i :| 0 <= i < |s.outstanding| && s.outstanding[i] == r;
        assert Before(s.current, s.outstanding[i]);
        assert states[n + 1].outstanding[i] == r;
      } else {
        assert forall i | 0 <= i < |s.outstanding| :: s.outstanding[i] in s.outstanding;
      }
    } else {
      BarrierHolds(states, steps, n + 1);
    }
  }

  /** It does break: one requestor at 10, nothing queued, the stop tag at FOREVER. */
  lemma ForeverBreaks() returns (states: seq<State>, steps: seq<Step>)
    ensures IsRun(states, steps) && |states| == 3 && !Held(states[2])
  {
    var s0 := State(Tag(5, 0), FOREVER_TAG, {}, 0, FOREVER_TAG, Free, []);
    steps := [Raise(Tag(10, 0)), Start(FOREVER_TAG)];
    var s1 := RaiseStep(s0, Tag(10, 0));
    var s2 := StartStep(s1, FOREVER_TAG);
    states := [s0, s1, s2];
    assert s2.outstanding[0] == Tag(10, 0);
  }

  // ---- the barrier holds nothing back without a reason ----

  /** The tag of a request: what was asked for, but not past the stop tag, and the next microstep if that
      is not ahead. */
  predicate Requests(s: State, t: Tag, u: Tag) {
    var wanted := if AtMost(t, s.stop) then t else s.stop;
    u == if Before(s.current, wanted) then wanted else Tag(s.current.time, s.current.microstep + 1)
  }

  /** A request brings the horizon to its own tag if that is earlier, and leaves it otherwise; a horizon
      that is no longer ahead, at the end of time, gives way. */
  lemma RaiseExactly(s: State, t: Tag) returns (u: Tag)
    requires Inv(s) && AtMost(t, FOREVER_TAG)
    ensures Requests(s, t, u) && RaiseStep(s, t).outstanding == s.outstanding + [u]
    ensures RaiseStep(s, t).horizon == if Before(s.current, s.horizon) then MinTag(u, s.horizon) else u
  {
    u := Effective(s.current, s.stop, t);
  }

  /** The horizon comes from a request made at step i, since when the barrier has been up. */
  ghost predicate RaisedAt(states: seq<State>, steps: seq<Step>, n: nat, i: nat) {
    && i < n < |states| && |steps| + 1 == |states| && steps[i].Raise? && Requests(states[i], steps[i].t, states[n].horizon)
    && forall j | i < j <= n :: states[j].requestors > 0
  }

  /** While the barrier is up its horizon is the tag of a request made since it went up; while it is
      down the horizon is FOREVER. */
  lemma {:induction false} HorizonHasAReason(states: seq<State>, steps: seq<Step>, n: nat) returns (i: nat)
    requires IsRun(states, steps) && n < |states|
    requires forall i | 0 <= i < n :: !ForeverProposal(states[i], steps[i])
    ensures if states[n].requestors > 0 then RaisedAt(states, steps, n, i) || states[n].horizon == FOREVER_TAG
            else states[n].horizon == FOREVER_TAG
  {
    i := 0;
    RunKeeps(states, steps, n);
    if n > 0 && states[n].requestors > 0 {
      RunKeeps(states, steps, n - 1);
      i := HorizonHasAReason(states, steps, n - 1);
      i := ReasonStays(states, steps, n - 1, i);
    }
  }

  lemma ReasonStays(states: seq<State>, steps: seq<Step>, n: nat, i: nat) returns (k: nat)
    requires IsRun(states, steps) && n < |steps| && Inv(states[n]) && states[n + 1].requestors > 0
    requires (states[n].requestors > 0 && RaisedAt(states, steps, n, i)) || states[n].horizon == FOREVER_TAG
    ensures RaisedAt(states, steps, n + 1, k) || states[n + 1].horizon == FOREVER_TAG
  {
    k := i;
    var s, e := states[n], steps[n];
    assert Enabled(s, e) && states[n + 1] == Next(s, e);
    if e.Raise? {
      var u := RaiseExactly(s, e.t);
      if states[n + 1].horizon == u { k := n; }
    }
  }

  /** A tag that is proposed is taken at once unless the barrier is up with its horizon not after it; then
      the thread waits with it. A FOREVER tag is always taken. */
  lemma StartExactly(s: State, t: Tag)
    requires s.requestors >= 0 && s.pc.Free? && IsNextTag(s, t)
    ensures var r := StartStep(s, t);
      && (r.pc == Waiting(t) <==> s.requestors > 0 && AtMost(s.horizon, t) && t.time != FOREVER)
      && (r.pc.Free? ==> r.current == if Before(s.current, t) then t else s.current)
      && (r.pc.Waiting? ==> r.current == s.current)
  {
  }

  /** A thread that wakes up goes on waiting exactly while the barrier is up with its horizon not after the
      tag it waits with, cut down to the stop tag; else it moves to the next tag as it is now. */
  lemma WakeExactly(s: State, t: Tag)
    requires s.pc.Waiting? && IsNextTag(s, t)
    ensures var r, held := WakeStep(s, t), if AtMost(s.pc.proposed, s.stop) then s.pc.proposed else s.stop;
      && (r.pc.Waiting? <==> s.requestors > 0 && AtMost(s.horizon, held))
      && (if r.pc.Waiting? then r.pc.proposed == held && r.current == s.current
          else r.current == if Before(s.current, t) then t else s.current)
  {
  }

  // ---- the barrier's variables ----

  class Barrier {
    var requestors: int
    var horizon: Tag

    constructor ()
      ensures requestors == 0 && horizon == FOREVER_TAG
    {
      requestors, horizon := 0, FOREVER_TAG;
    }

    /** _lf_increment_tag_barrier_locked. */
    method Increment(current: Tag, stop: Tag, future: Tag)
      modifies this
      ensures requestors == old(requestors) + 1 && horizon == Raised(current, stop, old(horizon), future)
      ensures Before(current, old(horizon)) ==> Before(current, horizon) && AtMost(horizon, old(horizon))
    {
      var t := future;
      if Compare(t, stop) > 0 { t := stop; }
      if Compare(t, current) > 0 {
        if Compare(t, horizon) < 0 { horizon := t; }
      } else {
        horizon := Tag(current.time, current.microstep + 1);
      }
      requestors := requestors + 1;
    }

    /** _lf_decrement_tag_barrier_locked; false for the error exit of a mismatched call. */
    method Decrement() returns (ok: bool)
      modifies this
      ensures requestors == old(requestors) - 1 && ok == (old(requestors) > 0)
      ensures horizon == if requestors == 0 then FOREVER_TAG else old(horizon)
    {
      requestors := requestors - 1;
      if requestors < 0 { return false; }
      if requestors == 0 { horizon := FOREVER_TAG; }
      return true;
    }
  }
}
