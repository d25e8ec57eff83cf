/** Which flags a transition step sets, and which modes get their startup over a whole run. */
module ModesStartup {
  import opened Wrappers
  import opened Modes
  import opened ModesTheorems

  // ---- the cascade ----

  lemma {:induction false} CascadeUntouched(h: Hierarchy, p: Plan, n: nat)
    requires h.Valid() && PlanShaped(h, p) && n <= |h.parent|
    ensures forall i | n <= i < |h.parent| :: Cascade(h, p, n).next[i] == p.next[i] && Cascade(h, p, n).change[i] == p.change[i]
  {
    if n > 0 { CascadeUntouched(h, p, n - 1); }
  }

  /** A reactor inside a mode that is entered by reset enters its initial mode by reset; every other
      one does what was asked of it. */
  lemma CascadeExactly(h: Hierarchy, p: Plan, i: nat)
    requires h.Valid() && PlanShaped(h, p) && i < |h.parent|
    ensures var q, around := Cascade(h, p, |h.parent|), h.parent[i];
      if around.Some? && q.next[h.owner[around.value]] == around && q.change[h.owner[around.value]] == Reset
      then q.next[i] == Some(h.initial[i]) && q.change[i] == Reset
      else q.next[i] == p.next[i] && q.change[i] == p.change[i]
  {
    CascadeUntouched(h, p, i);
    CascadeFrame(h, p, i, |h.parent|);
    CascadeFrame(h, p, i + 1, |h.parent|);
  }

  // ---- one step ----

  /** Reactor i's step touches only its own modes. */
  lemma OneLeaves(h: Hierarchy, q: Plan, s: Status, now: int, i: nat, m: nat)
    requires h.Valid() && PlanShaped(h, q) && Shaped(h, s) && i < |h.parent| && m < |h.owner| && h.owner[m] != i
    ensures var r := ApplyOne(h, q, s, now, i); r.flags[m] == s.flags[m] && r.left[m] == s.left[m]
  {
    var a := Move(h, q, s, now, i);
    assert a.flags[m] == s.flags[m] && a.left[m] == s.left[m] && a.current[i] != m;
  }

  lemma MoveSets(h: Hierarchy, q: Plan, s: Status, now: int, i: nat, m: nat)
    requires h.Valid() && PlanShaped(h, q) && Shaped(h, s) && i < |h.parent| && m < |h.owner| && h.owner[m] == i
    requires !(s.flags[m].needsStartup && s.flags[m].hadStartup)
    ensures var r := Move(h, q, s, now, i);
      SetFor(q, i, m, s.flags[m], r.flags[m]) && r.left[m] == if q.next[i].Some? && s.current[i] == m then now else s.left[m]
  {
  }

  /** The flags of mode m of reactor i after the step, up to its activity. */
  predicate SetFor(q: Plan, i: nat, m: nat, f0: Flags, f: Flags)
    requires i < |q.next| == |q.change|
  {
    && f.hadStartup == f0.hadStartup
    && if q.next[i] == Some(m) then f.needsStartup == !f0.hadStartup && f.needsReset == (q.change[i] == Reset)
       else f.needsStartup == f0.needsStartup && f.needsReset == f0.needsReset
  }

  lemma OneSets(h: Hierarchy, q: Plan, s: Status, now: int, i: nat, m: nat)
    requires h.Valid() && PlanShaped(h, q) && Shaped(h, s) && i < |h.parent| && m < |h.owner| && h.owner[m] == i
    requires !(s.flags[m].needsStartup && s.flags[m].hadStartup)
    ensures var r := ApplyOne(h, q, s, now, i);
      SetFor(q, i, m, s.flags[m], r.flags[m]) && r.left[m] == if q.next[i].Some? && s.current[i] == m then now else s.left[m]
  {
    MoveSets(h, q, s, now, i, m);
    RefreshIs(h, Move(h, q, s, now, i), i, m);
  }

  lemma RefreshIs(h: Hierarchy, s: Status, i: nat, m: nat)
    requires h.Valid() && Shaped(h, s) && i < |h.parent| && m < |h.owner|
    ensures var r := Refresh(h, s, i); r.left == s.left && (r.flags[m] == s.flags[m] || r.flags[m] == s.flags[m].(active := true))
  {
  }

  /** From one stage to the next, the books of mode m and the modes of the other reactors stay. */
  ghost predicate Leaves(ss: seq<Status>, i: nat, m: nat) {
    && i + 1 < |ss| && m < |ss[i].flags| == |ss[i].left| && |ss[i + 1].flags| == |ss[i + 1].left| == |ss[i].flags|
    && ss[i + 1].flags[m] == ss[i].flags[m] && ss[i + 1].left[m] == ss[i].left[m]
  }

  /** Before a reactor's own turn its current mode stays. */
  ghost predicate Spares(ss: seq<Status>, i: nat, j: nat) {
    && i + 1 < |ss| && j < |ss[i].current| == |ss[i + 1].current| && ss[i + 1].current[j] == ss[i].current[j]
  }

  lemma {:induction false} StagesLeave(ss: seq<Status>, k: nat, n: nat, m: nat)
    requires k <= n < |ss| && m < |ss[k].flags| == |ss[k].left| && forall i: nat | k <= i < n :: Leaves(ss, i, m)
    ensures m < |ss[n].flags| == |ss[n].left| && ss[n].flags[m] == ss[k].flags[m] && ss[n].left[m] == ss[k].left[m]
  {
    if k < n {
      StagesLeave(ss, k, n - 1, m);
      assert Leaves(ss, n - 1, m);
    }
  }

  lemma {:induction false} StagesSpare(ss: seq<Status>, n: nat, j: nat)
    requires n < |ss| && j < |ss[0].current| && forall i: nat | i < n :: Spares(ss, i, j)
    ensures j < |ss[n].current| && ss[n].current[j] == ss[0].current[j]
  {
    if n > 0 {
      StagesSpare(ss, n - 1, j);
      assert Spares(ss, n - 1, j);
    }
  }

  /** The states between the reactors' turns. */
  function Stages(h: Hierarchy, q: Plan, s: Status, now: int): (ss: seq<Status>)
    requires h.Valid() && PlanShaped(h, q) && Shaped(h, s)
    ensures |ss| == |h.parent| + 1 && forall i | 0 <= i < |ss| :: ss[i] == Apply(h, q, s, now, i)
  {
    seq(|h.parent| + 1, i requires 0 <= i <= |h.parent| => Apply(h, q, s, now, i))
  }

  lemma StageLeaves(h: Hierarchy, q: Plan, s: Status, now: int, i: nat, m: nat)
    requires h.Valid() && PlanShaped(h, q) && Shaped(h, s) && i < |h.parent| && m < |h.owner| && h.owner[m] != i
    ensures Leaves(Stages(h, q, s, now), i, m)
  {
    var a, b := Stages(h, q, s, now)[i], Stages(h, q, s, now)[i + 1];
    assert a == Apply(h, q, s, now, i) && b == ApplyOne(h, q, a, now, i);
    OneLeaves(h, q, a, now, i, m);
  }

  lemma StageSpares(h: Hierarchy, q: Plan, s: Status, now: int, i: nat, j: nat)
    requires h.Valid() && PlanShaped(h, q) && Shaped(h, s) && i < |h.parent| && j < |h.parent| && i != j
    ensures Spares(Stages(h, q, s, now), i, j)
  {
    var a, b := Stages(h, q, s, now)[i], Stages(h, q, s, now)[i + 1];
    assert a == Apply(h, q, s, now, i) && b == ApplyOne(h, q, a, now, i);
    OneMoves(h, q, a, now, i);
  }

  /** Up to the turn of its reactor a mode is as before the step. */
  lemma BeforeItsTurn(h: Hierarchy, q: Plan, s: Status, now: int, m: nat)
    requires h.Valid() && PlanShaped(h, q) && Shaped(h, s) && m < |h.owner|
    ensures var a, i := Apply(h, q, s, now, h.owner[m]), h.owner[m];
      a.flags[m] == s.flags[m] && a.left[m] == s.left[m] && a.current[i] == s.current[i]
  {
    var ss, i := Stages(h, q, s, now), h.owner[m];
    assert ss[0] == s;
    forall k: nat | k < i ensures Leaves(ss, k, m) { StageLeaves(h, q, s, now, k, m); }
    forall k: nat | k < i ensures Spares(ss, k, i) { StageSpares(h, q, s, now, k, i); }
    StagesLeave(ss, 0, i, m);
    StagesSpare(ss, i, i);
  }

  /** And after it a mode keeps its books. */
  lemma AfterItsTurn(h: Hierarchy, q: Plan, s: Status, now: int, m: nat)
    requires h.Valid() && PlanShaped(h, q) && Shaped(h, s) && m < |h.owner|
    ensures var r, b := Apply(h, q, s, now, |h.parent|), Apply(h, q, s, now, h.owner[m] + 1);
      r.flags[m] == b.flags[m] && r.left[m] == b.left[m]
  {
    var ss, i := Stages(h, q, s, now), h.owner[m];
    forall k: nat | i + 1 <= k < |h.parent| ensures Leaves(ss, k, m) { StageLeaves(h, q, s, now, k, m); }
    StagesLeave(ss, i + 1, |h.parent|, m);
  }

  /** The second loop as a whole, for one mode. */
  lemma ApplySets(h: Hierarchy, q: Plan, s: Status, now: int, m: nat)
    requires h.Valid() && PlanShaped(h, q) && Shaped(h, s) && m < |h.owner|
    requires !(s.flags[m].needsStartup && s.flags[m].hadStartup)
    ensures var r, i := Apply(h, q, s, now, |h.parent|), h.owner[m];
      SetFor(q, i, m, s.flags[m], r.flags[m]) && r.left[m] == if q.next[i].Some? && s.current[i] == m then now else s.left[m]
  {
    BeforeItsTurn(h, q, s, now, m);
    OneSets(h, q, Apply(h, q, s, now, h.owner[m]), now, h.owner[m], m);
    AfterItsTurn(h, q, s, now, m);
  }

  /** After a transition step, for every mode: if it is entered, it needs its startup exactly if it never
      had it and its reset exactly if it is entered by reset; if not, its pending flags are as before.
      The time of leaving is noted for exactly the modes that were current where a transition happens. */
  lemma EntryFlags(h: Hierarchy, p: Plan, s: Status, now: int, m: nat)
    requires h.Valid() && PlanShaped(h, p) && Shaped(h, s) && CacheOk(h, s) && OnceOk(s) && m < |h.owner|
    ensures var q, r, i := Cascade(h, p, |h.parent|), Process(h, p, s, now).1, h.owner[m];
      && (q.next[i] == Some(m) ==> (r.flags[m].needsStartup <==> !s.flags[m].hadStartup)
                                   && (r.flags[m].needsReset <==> q.change[i] == Reset))
      && (q.next[i] != Some(m) ==> (r.flags[m].needsStartup <==> s.flags[m].needsStartup)
                                   && (r.flags[m].needsReset <==> s.flags[m].needsReset))
      && (r.flags[m].hadStartup <==> s.flags[m].hadStartup)
      && r.left[m] == if q.next[i].Some? && s.current[i] == m then now else s.left[m]
  {
    var q := Cascade(h, p, |h.parent|);
    if AnyTransition(q) {
      ApplySets(h, q, s, now, m);
    } else {
      assert q.next[h.owner[m]].None?;
    }
  }

  // ---- the request bits ----

  /** Some mode is active and waits for its startup (or its reset). */
  ghost predicate StartupDue(s: Status) { exists m :: 0 <= m < |s.flags| && s.flags[m].active && s.flags[m].needsStartup }

  ghost predicate ResetDue(s: Status) { exists m :: 0 <= m < |s.flags| && s.flags[m].active && s.flags[m].needsReset }

  /** A reactor's step sets a bit only for its own current mode. */
  lemma OneRequests(h: Hierarchy, q: Plan, s: Status, now: int, i: nat)
    requires h.Valid() && PlanShaped(h, q) && Shaped(h, s) && i < |h.parent|
    ensures var r := ApplyOne(h, q, s, now, i);
      && (s.startup ==> r.startup) && (s.reset ==> r.reset)
      && (r.startup && !s.startup ==> r.flags[r.current[i]].active && r.flags[r.current[i]].needsStartup)
      && (r.reset && !s.reset ==> r.flags[r.current[i]].active && r.flags[r.current[i]].needsReset)
  {
    var a := Move(h, q, s, now, i);
    assert a.startup == s.startup && a.reset == s.reset;
  }

  lemma {:induction false} StartupComesFrom(h: Hierarchy, q: Plan, s: Status, now: int, n: nat) returns (m: nat)
    requires h.Valid() && PlanShaped(h, q) && Shaped(h, s) && n <= |h.parent|
    requires Apply(h, q, s, now, n).startup && !s.startup
    ensures m < |h.owner| && h.owner[m] < n
    ensures Apply(h, q, s, now, n).flags[m].active && Apply(h, q, s, now, n).flags[m].needsStartup
  {
    var before, after, i := Apply(h, q, s, now, n - 1), Apply(h, q, s, now, n), n - 1;
    assert after == ApplyOne(h, q, before, now, i);
    if before.startup {
      m := StartupComesFrom(h, q, s, now, i);
      OneLeaves(h, q, before, now, i, m);
    } else {
      OneRequests(h, q, before, now, i);
      m := after.current[i];
    }
  }

  lemma {:induction false} ResetComesFrom(h: Hierarchy, q: Plan, s: Status, now: int, n: nat) returns (m: nat)
    requires h.Valid() && PlanShaped(h, q) && Shaped(h, s) && n <= |h.parent|
    requires Apply(h, q, s, now, n).reset && !s.reset
    ensures m < |h.owner| && h.owner[m] < n
    ensures Apply(h, q, s, now, n).flags[m].active && Apply(h, q, s, now, n).flags[m].needsReset
  {
    var before, after, i := Apply(h, q, s, now, n - 1), Apply(h, q, s, now, n), n - 1;
    assert after == ApplyOne(h, q, before, now, i);
    if before.reset {
      m := ResetComesFrom(h, q, s, now, i);
      OneLeaves(h, q, before, now, i, m);
    } else {
      OneRequests(h, q, before, now, i);
      m := after.current[i];
    }
  }

  /** The request bits ask for the handler exactly when there is something for it to do: after a step a
      bit is set exactly if it was, or if an active mode is waiting. */
  lemma RequestExactly(h: Hierarchy, p: Plan, s: Status, now: int)
    requires h.Valid() && PlanShaped(h, p) && Shaped(h, s) && CacheOk(h, s) && OnceOk(s) && RequestOk(s)
    ensures var r := Process(h, p, s, now).1;
      (r.startup <==> s.startup || StartupDue(r)) && (r.reset <==> s.reset || ResetDue(r))
  {
    var q, r := Cascade(h, p, |h.parent|), Process(h, p, s, now).1;
    ProcessKeeps(h, p, s, now);
    RequestsGrow(h, q, s, now, |h.parent|);
    if AnyTransition(q) {
      if r.startup && !s.startup { var m := StartupComesFrom(h, q, s, now, |h.parent|); }
      if r.reset && !s.reset { var m := ResetComesFrom(h, q, s, now, |h.parent|); }
    }
  }

  lemma {:induction false} RequestsGrow(h: Hierarchy, q: Plan, s: Status, now: int, n: nat)
    requires h.Valid() && PlanShaped(h, q) && Shaped(h, s) && n <= |h.parent|
    ensures var r := Apply(h, q, s, now, n); (s.startup ==> r.startup) && (s.reset ==> r.reset)
  {
    if n > 0 {
      RequestsGrow(h, q, s, now, n - 1);
      OneRequests(h, q, Apply(h, q, s, now, n - 1), now, n - 1);
    }
  }

  // ---- startup over a run ----

  predicate AllEnabled(h: Hierarchy, acts: seq<Act>) { forall i | 0 <= i < |acts| :: Enabled(h, acts[i]) }

  /** The modes that were active at the beginning or have been entered since. */
  ghost function Opened(h: Hierarchy, acts: seq<Act>): set<nat>
    requires h.Valid() && AllEnabled(h, acts)
  {
    if acts == [] then set m: nat | m < |h.owner| && Active(h, h.initial, m)
    else
      var before := acts[..|acts| - 1];
      if acts[|acts| - 1].Step? then Opened(h, before) + EnteredBy(h, Run(h, before).plan) else Opened(h, before)
  }

  /** The modes a step enters. */
  ghost function EnteredBy(h: Hierarchy, p: Plan): set<nat>
    requires h.Valid() && PlanShaped(h, p)
  {
    set m: nat | m < |h.owner| && Cascade(h, p, |h.parent|).next[h.owner[m]] == Some(m)
  }

  ghost function CallsStarting(starts: seq<set<nat>>, m: nat): nat {
    if starts == [] then 0
    else CallsStarting(starts[..|starts| - 1], m) + if m in starts[|starts| - 1] then 1 else 0
  }

  lemma {:induction false} StartupBooks(h: Hierarchy, acts: seq<Act>, m: nat)
    requires h.Valid() && AllEnabled(h, acts) && m < |h.owner|
    ensures var w := Run(h, acts); var f := w.status.flags[m];
      && (m in Opened(h, acts) <==> f.needsStartup || f.hadStartup)
      && CallsStarting(w.starts, m) == if f.hadStartup then 1 else 0
  {
    if acts == [] {
      InitSets(h, |h.parent|);
      assert InitMode(h, h.initial, Initialized(h).flags, |h.parent|, m);
    } else {
      var before, a := acts[..|acts| - 1], acts[|acts| - 1];
      var w := Run(h, before);
      StartupBooks(h, before, m);
      RunKeeps(h, before);
      match a
      case SetMode(_, _, _) =>
      case Queue(_) =>
      case Step(now, _) => EntryFlags(h, w.plan, w.status, now, m);
      case Trigger =>
        HandleExactly(h, w.status);
        HandleIs(h, w.status, |h.parent|);
        assert (w.starts + [StartsUp(w.status)])[..|w.starts|] == w.starts;
    }
  }

  /** After a handler call an active mode has had its startup, from exactly one call, exactly if it was
      active at the beginning or has been entered since; otherwise from none. */
  lemma StartupExactly(h: Hierarchy, acts: seq<Act>, m: nat)
    requires h.Valid() && AllEnabled(h, acts) && acts != [] && acts[|acts| - 1].Trigger? && m < |h.owner|
    requires Run(h, acts).status.flags[m].active
    ensures CallsStarting(Run(h, acts).starts, m) == if m in Opened(h, acts) then 1 else 0
    ensures Run(h, acts).status.flags[m].hadStartup <==> m in Opened(h, acts)
  {
    var w := Run(h, acts[..|acts| - 1]);
    StartupBooks(h, acts, m);
    RunKeeps(h, acts[..|acts| - 1]);
    HandleIs(h, w.status, |h.parent|);
    assert Active(h, w.status.current, m);
  }

  // ---- when that covers every active mode ----

  /** Only transitions by reset enter modes that have reactors inside. */
  predicate Thorough(h: Hierarchy, acts: seq<Act>) {
    forall k, i | 0 <= k < |acts| && acts[k].SetMode? && acts[k].c != Reset && 0 <= i < |h.parent| :: h.parent[i] != Some(acts[k].m)
  }

  ghost predicate ThoroughPlan(h: Hierarchy, p: Plan)
    requires h.Valid() && PlanShaped(h, p)
  {
    forall i, j | 0 <= i < |p.next| && p.next[i].Some? && p.change[i] != Reset && 0 <= j < |h.parent| :: h.parent[j] != p.next[i]
  }

  lemma CascadeThorough(h: Hierarchy, p: Plan)
    requires h.Valid() && PlanShaped(h, p) && ThoroughPlan(h, p)
    ensures ThoroughPlan(h, Cascade(h, p, |h.parent|))
  {
    var q := Cascade(h, p, |h.parent|);
    forall i, j | 0 <= i < |q.next| && q.next[i].Some? && q.change[i] != Reset && 0 <= j < |h.parent| ensures h.parent[j] != q.next[i] {
      CascadeExactly(h, p, i);
    }
  }

  /** Then no mode becomes active without being entered. */
  lemma {:induction false} NoneRevived(h: Hierarchy, p: Plan, current: seq<nat>, m: nat)
    requires h.Valid() && PlanShaped(h, p) && ThoroughPlan(h, p) && InOwnModes(h, current) && m < |h.owner|
    requires var q := Cascade(h, p, |h.parent|);
      InOwnModes(h, Targets(q, current)) && Active(h, Targets(q, current), m) && q.next[h.owner[m]] != Some(m)
    ensures Active(h, current, m)
    decreases h.owner[m]
  {
    var q, i := Cascade(h, p, |h.parent|), h.owner[m];
    assert Targets(q, current)[i] == m;
    assert current[i] == m;
    if h.parent[i].Some? {
      var around := h.parent[i].value;
      CascadeExactly(h, p, i);
      CascadeThorough(h, p);
      assert q.next[h.owner[around]] != Some(around);
      NoneRevived(h, p, current, around);
    }
  }

  lemma {:induction false} PlanIsThorough(h: Hierarchy, acts: seq<Act>)
    requires h.Valid() && AllEnabled(h, acts) && Thorough(h, acts)
    ensures ThoroughPlan(h, Run(h, acts).plan)
  {
    if acts != [] {
      var before, a := acts[..|acts| - 1], acts[|acts| - 1];
      PlanIsThorough(h, before);
      if a.Step? { CascadeThorough(h, Run(h, before).plan); }
    }
  }

  lemma {:induction false} ActiveAreOpened(h: Hierarchy, acts: seq<Act>, m: nat)
    requires h.Valid() && AllEnabled(h, acts) && Thorough(h, acts) && m < |h.owner| && Run(h, acts).status.flags[m].active
    ensures m in Opened(h, acts)
  {
    RunKeeps(h, acts);
    if acts != [] {
      var before, a := acts[..|acts| - 1], acts[|acts| - 1];
      var w := Run(h, before);
      RunKeeps(h, before);
      match a
      case SetMode(_, _, _) => ActiveAreOpened(h, before, m);
      case Queue(_) => ActiveAreOpened(h, before, m);
      case Step(now, _) =>
        PlanIsThorough(h, before);
        StepCurrents(h, w.plan, w.status, now);
        if m !in EnteredBy(h, w.plan) {
          NoneRevived(h, w.plan, w.status.current, m);
          ActiveAreOpened(h, before, m);
        }
      case Trigger =>
        HandleIs(h, w.status, |h.parent|);
        ActiveAreOpened(h, before, m);
    }
  }

  /** If only transitions by reset enter modes with reactors inside, in particular without nesting, every
      mode active after a handler call was started by exactly one call. */
  lemma StartedExactlyOnce(h: Hierarchy, acts: seq<Act>, m: nat)
    requires h.Valid() && AllEnabled(h, acts) && Thorough(h, acts) && acts != [] && acts[|acts| - 1].Trigger? && m < |h.owner|
    requires Run(h, acts).status.flags[m].active
    ensures CallsStarting(Run(h, acts).starts, m) == 1 && Run(h, acts).status.flags[m].hadStartup
  {
    StartupExactly(h, acts, m);
    ActiveAreOpened(h, acts, m);
  }

  // ---- a run in which an active mode never gets its startup ----

  const INNER := Hierarchy([0, 0, 1], [None, Some(1)], [0, 2])

  lemma InnerPlan(p: Plan)
    requires INNER.Valid() && PlanShaped(INNER, p) && p.next == [Some(1), None] && p.change[0] == History
    ensures Cascade(INNER, p, 2) == p
  {
    assert Cascade(INNER, p, 1) == p;
  }

  lemma InnerActive(current: seq<nat>, m: nat)
    requires INNER.Valid() && current == [m, 2] && m < 2
    ensures InOwnModes(INNER, current) && (Active(INNER, current, 2) <==> m == 1)
  {
    assert Active(INNER, current, 2) <==> Active(INNER, current, 1);
  }

  lemma RunMore(h: Hierarchy, acts: seq<Act>, a: Act)
    requires h.Valid() && AllEnabled(h, acts) && Enabled(h, a)
    ensures AllEnabled(h, acts + [a]) && Run(h, acts + [a]) == Next(h, Run(h, acts), a)
    ensures Opened(h, acts + [a]) == if a.Step? then Opened(h, acts) + EnteredBy(h, Run(h, acts).plan) else Opened(h, acts)
  {
    assert (acts + [a])[..|acts|] == acts;
  }

  /** The step that enters mode 1. */
  lemma EnterOuter(w: World, now: int)
    requires INNER.Valid() && PlanShaped(INNER, w.plan) && Shaped(INNER, w.status) && Inv(INNER, w)
    requires w.plan.next == [Some(1), None] && w.plan.change[0] == History && w.status.current == [0, 2]
    ensures Next(INNER, w, Step(now, [])).status.flags[2].active && 2 !in EnteredBy(INNER, w.plan)
  {
    InnerPlan(w.plan);
    InnerActive([1, 2], 1);
    StepCurrents(INNER, w.plan, w.status, now);
    assert Targets(w.plan, w.status.current) == [1, 2];
    StepKeeps(INNER, w, now, []);
  }

  /** The request to enter mode 1 by history. */
  lemma FirstRequest() returns (acts: seq<Act>)
    ensures INNER.Valid() && AllEnabled(INNER, acts)
    ensures var w := Run(INNER, acts);
      w.plan.next == [Some(1), None] && w.plan.change[0] == History && w.status.current == [0, 2] && 2 !in Opened(INNER, acts)
  {
    InnerActive([0, 2], 0);
    RunMore(INNER, [], SetMode(0, 1, History));
    acts := [] + [SetMode(0, 1, History)];
  }

  lemma StepAndTrigger(acts: seq<Act>) returns (more: seq<Act>)
    requires INNER.Valid() && AllEnabled(INNER, acts) && 2 !in Opened(INNER, acts)
    requires var w := Run(INNER, acts);
      w.plan.next == [Some(1), None] && w.plan.change[0] == History && w.status.current == [0, 2]
    ensures AllEnabled(INNER, more) && more != [] && more[|more| - 1].Trigger?
    ensures Run(INNER, more).status.flags[2].active && 2 !in Opened(INNER, more)
  {
    var now := 5;
    var moved := acts + [Step(now, [])];
    RunMore(INNER, acts, Step(now, []));
    RunKeeps(INNER, acts);
    EnterOuter(Run(INNER, acts), now);
    RunMore(INNER, moved, Trigger);
    HandleIs(INNER, Run(INNER, moved).status, |INNER.parent|);
    more := moved + [Trigger];
  }

  /** Reactor 1 sits in mode 1 of reactor 0, which starts in mode 0. Entering mode 1 by history makes
      mode 2, the initial mode of reactor 1, active; nobody entered it, and its startup never comes. */
  lemma NeverStarted() returns (acts: seq<Act>)
    ensures INNER.Valid() && AllEnabled(INNER, acts) && acts != [] && acts[|acts| - 1].Trigger?
    ensures var w := Run(INNER, acts); w.status.flags[2].active && !w.status.flags[2].hadStartup && CallsStarting(w.starts, 2) == 0
  {
    var one := FirstRequest();
    acts := StepAndTrigger(one);
    StartupExactly(INNER, acts, 2);
  }
}
