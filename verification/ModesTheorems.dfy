/** What initialization, transitions and the startup handler keep over any run. */
module ModesTheorems {
  import opened Wrappers
  import opened Modes

  // ---- the activity cache ----

  /** The cached flag of every mode agrees with the walk up the hierarchy. */
  ghost predicate CacheOk(h: Hierarchy, s: Status)
    requires h.Valid() && Shaped(h, s)
  {
    forall m | 0 <= m < |h.owner| :: s.flags[m].active == Active(h, s.current, m)
  }

  /** Activity of a mode depends on its own reactor and those listed before it. */
  lemma {:induction false} ActiveLocal(h: Hierarchy, a: seq<nat>, b: seq<nat>, m: nat)
    requires h.Valid() && InOwnModes(h, a) && InOwnModes(h, b) && m < |h.owner|
    requires forall i | 0 <= i <= h.owner[m] :: a[i] == b[i]
    ensures Active(h, a, m) == Active(h, b, m)
    decreases h.owner[m]
  {
    var i := h.owner[m];
    if h.parent[i].Some? { ActiveLocal(h, a, b, h.parent[i].value); }
  }

  lemma ActiveLocally(h: Hierarchy, a: seq<nat>, b: seq<nat>, n: nat)
    requires h.Valid() && InOwnModes(h, a) && InOwnModes(h, b) && n <= |a|
    requires forall i | 0 <= i < n :: a[i] == b[i]
    ensures forall m | 0 <= m < |h.owner| && h.owner[m] < n :: Active(h, a, m) == Active(h, b, m)
  {
    forall m | 0 <= m < |h.owner| && h.owner[m] < n ensures Active(h, a, m) == Active(h, b, m) { ActiveLocal(h, a, b, m); }
  }

  /** What initialization sets of mode m, once its reactor is among the first n. */
  ghost predicate InitMode(h: Hierarchy, current: seq<nat>, f: seq<Flags>, n: nat, m: nat)
    requires h.Valid() && InOwnModes(h, current) && |f| == |h.owner| && m < |h.owner|
  {
    f[m] == if h.owner[m] < n && Active(h, current, m) then Flags(true, true, false, false) else Flags(false, false, false, false)
  }

  /** Initialization sets the cache right, and asks for the startup of exactly the active modes. */
  ghost predicate InitOk(h: Hierarchy, current: seq<nat>, f: seq<Flags>, n: nat)
    requires h.Valid() && InOwnModes(h, current)
  {
    |f| == |h.owner| && forall m | 0 <= m < |h.owner| :: InitMode(h, current, f, n, m)
  }

  function Unset(h: Hierarchy): seq<Flags> { seq(|h.owner|, _ => Flags(false, false, false, false)) }

  lemma {:induction false} InitSets(h: Hierarchy, n: nat)
    requires h.Valid() && n <= |h.parent|
    ensures InitOk(h, h.initial, InitFlags(h, h.initial, Unset(h), n), n)
  {
    if n > 0 {
      InitSets(h, n - 1);
      var f, g := InitFlags(h, h.initial, Unset(h), n - 1), InitFlags(h, h.initial, Unset(h), n);
      forall m | 0 <= m < |h.owner| ensures InitMode(h, h.initial, g, n, m) {
        assert InitMode(h, h.initial, f, n - 1, m);
        if h.owner[m] == n - 1 && h.parent[n - 1].Some? { assert InitMode(h, h.initial, f, n - 1, h.parent[n - 1].value); }
      }
    }
  }

  function Initialized(h: Hierarchy): (s: Status)
    requires h.Valid()
    ensures Shaped(h, s)
  {
    Status(h.initial, InitFlags(h, h.initial, Unset(h), |h.parent|), seq(|h.owner|, _ => 0), true, false)
  }

  // ---- startup and reset bookkeeping ----

  /** No mode both needs and had its startup. */
  ghost predicate OnceOk(s: Status) {
    forall m | 0 <= m < |s.flags| :: !(s.flags[m].needsStartup && s.flags[m].hadStartup)
  }

  /** Pending flags of active modes are covered by the request bits. */
  ghost predicate RequestOk(s: Status) {
    forall m | 0 <= m < |s.flags| && s.flags[m].active ::
      (s.flags[m].needsStartup ==> s.startup) && (s.flags[m].needsReset ==> s.reset)
  }

  ghost predicate HadKept(s: Status, r: Status) {
    |r.flags| == |s.flags| && forall m | 0 <= m < |s.flags| && s.flags[m].hadStartup :: r.flags[m].hadStartup
  }

  // ---- all reactors of a step ----

  function Target(p: Plan, current: seq<nat>, n: nat, i: nat): nat
    requires i < |p.next| && i < |current|
  {
    if i < n && p.next[i].Some? then p.next[i].value else current[i]
  }

  function MoveOne(p: Plan, current: seq<nat>, i: nat): (r: seq<nat>)
    requires i < |p.next| == |current|
    ensures |r| == |current|
  {
    if p.next[i].Some? then current[i := p.next[i].value] else current
  }

  function Currents(p: Plan, current: seq<nat>, n: nat): (r: seq<nat>)
    requires n <= |p.next| == |current|
    ensures |r| == |current| && forall i | 0 <= i < |current| :: r[i] == Target(p, current, n, i)
  {
    if n == 0 then current else MoveOne(p, Currents(p, current, n - 1), n - 1)
  }

  /** What a transition step has established of mode m after its first n reactors. */
  ghost predicate GoodMode(h: Hierarchy, s0: Status, s: Status, n: nat, m: nat)
    requires h.Valid() && Shaped(h, s0) && Shaped(h, s) && n <= |h.parent| && m < |h.owner|
  {
    var f := s.flags[m];
    && (h.owner[m] < n ==> f.active == Active(h, s.current, m))
    && (h.owner[m] < n && f.active ==> (f.needsStartup ==> s.startup) && (f.needsReset ==> s.reset))
    && (h.owner[m] >= n ==> f == s0.flags[m])
    && !(f.needsStartup && f.hadStartup) && (s0.flags[m].hadStartup ==> f.hadStartup)
  }

  /** And of all modes, with the reactors moved. */
  ghost predicate GoodUpTo(h: Hierarchy, p: Plan, s0: Status, s: Status, n: nat)
    requires h.Valid() && PlanShaped(h, p) && Shaped(h, s0) && Shaped(h, s) && n <= |h.parent|
  {
    s.current == Currents(p, s0.current, n) && forall m | 0 <= m < |h.owner| :: GoodMode(h, s0, s, n, m)
  }

  /** Reactor i's step on a mode of an earlier reactor, which keeps its flags. */
  lemma OneKeepsEarlier(h: Hierarchy, p: Plan, s0: Status, s: Status, now: int, i: nat, m: nat)
    requires h.Valid() && PlanShaped(h, p) && Shaped(h, s0) && Shaped(h, s) && i < |h.parent| && m < |h.owner|
    requires h.owner[m] < i && GoodMode(h, s0, s, i, m)
    ensures GoodMode(h, s0, ApplyOne(h, p, s, now, i), i + 1, m)
  {
    ActiveLocal(h, s.current, ApplyOne(h, p, s, now, i).current, m);
  }

  /** And on its own modes: the current one is active exactly if the enclosing mode is. */
  lemma OneKeepsOwn(h: Hierarchy, p: Plan, s0: Status, s: Status, now: int, i: nat, m: nat)
    requires h.Valid() && PlanShaped(h, p) && Shaped(h, s0) && Shaped(h, s) && i < |h.parent| && m < |h.owner|
    requires CacheOk(h, s0) && h.owner[m] == i && GoodMode(h, s0, s, i, m) && s.current[i] == s0.current[i]
    requires h.parent[i].Some? ==> GoodMode(h, s0, s, i, h.parent[i].value)
    ensures GoodMode(h, s0, ApplyOne(h, p, s, now, i), i + 1, m)
  {
    var r := ApplyOne(h, p, s, now, i);
    assert s0.flags[m].active == Active(h, s0.current, m);
    OwnFlags(h, p, s, now, i, m);
    if h.parent[i].Some? { ActiveLocal(h, s.current, r.current, h.parent[i].value); }
  }

  lemma OwnFlags(h: Hierarchy, p: Plan, s: Status, now: int, i: nat, m: nat)
    requires h.Valid() && PlanShaped(h, p) && Shaped(h, s) && i < |h.parent| && m < |h.owner| && h.owner[m] == i
    requires (m != s.current[i] ==> !s.flags[m].active) && !(s.flags[m].needsStartup && s.flags[m].hadStartup)
    ensures var r := ApplyOne(h, p, s, now, i);
      var f := r.flags[m];
      && (f.active <==> r.current[i] == m && Cached(s.flags, h.parent[i]))
      && (f.active ==> (f.needsStartup ==> r.startup) && (f.needsReset ==> r.reset))
      && f.hadStartup == s.flags[m].hadStartup && !(f.needsStartup && f.hadStartup)
  {
    var a := Move(h, p, s, now, i);
    assert !a.flags[m].active && a.flags[m].hadStartup == s.flags[m].hadStartup;
    if h.parent[i].Some? { assert a.flags[h.parent[i].value] == s.flags[h.parent[i].value]; }
  }

  lemma OneMoves(h: Hierarchy, p: Plan, s: Status, now: int, i: nat)
    requires h.Valid() && PlanShaped(h, p) && Shaped(h, s) && i < |h.parent|
    ensures ApplyOne(h, p, s, now, i).current == MoveOne(p, s.current, i)
  {
  }

  lemma OneKeepsGood(h: Hierarchy, p: Plan, s0: Status, s: Status, now: int, i: nat, r: Status, next: nat)
    requires h.Valid() && PlanShaped(h, p) && Shaped(h, s0) && Shaped(h, s) && i < |h.parent|
    requires CacheOk(h, s0) && GoodUpTo(h, p, s0, s, i) && r == ApplyOne(h, p, s, now, i) && next == i + 1
    ensures GoodUpTo(h, p, s0, r, next)
  {
    OneMoves(h, p, s, now, i);
    assert s.current[i] == s0.current[i];
    forall m | 0 <= m < |h.owner| ensures GoodMode(h, s0, r, next, m) {
      assert GoodMode(h, s0, s, i, m);
      if h.owner[m] < i {
        OneKeepsEarlier(h, p, s0, s, now, i, m);
      } else if h.owner[m] == i {
        OneKeepsOwn(h, p, s0, s, now, i, m);
      }
    }
  }

  lemma {:induction false} ApplyKeepsGood(h: Hierarchy, p: Plan, s: Status, now: int, n: nat)
    requires h.Valid() && PlanShaped(h, p) && Shaped(h, s) && CacheOk(h, s) && OnceOk(s) && n <= |h.parent|
    ensures GoodUpTo(h, p, s, Apply(h, p, s, now, n), n)
  {
    if n == 0 {
      NoneMoved(h, p, s, Apply(h, p, s, now, n), n);
    } else {
      var before := Apply(h, p, s, now, n - 1);
      ApplyKeepsGood(h, p, s, now, n - 1);
      OneKeepsGood(h, p, s, before, now, n - 1, Apply(h, p, s, now, n), n);
    }
  }

  lemma NoneMoved(h: Hierarchy, p: Plan, s: Status, r: Status, n: nat)
    requires h.Valid() && PlanShaped(h, p) && Shaped(h, s) && OnceOk(s) && r == s && n == 0
    ensures GoodUpTo(h, p, s, r, n)
  {
  }

  /** A transition step keeps the cache right and the books in order. */
  lemma ProcessKeeps(h: Hierarchy, p: Plan, s: Status, now: int)
    requires h.Valid() && PlanShaped(h, p) && Shaped(h, s) && CacheOk(h, s) && OnceOk(s) && RequestOk(s)
    ensures var r := Process(h, p, s, now).1; CacheOk(h, r) && OnceOk(r) && RequestOk(r) && HadKept(s, r)
  {
    var q := Cascade(h, p, |h.parent|);
    ApplyKeepsGood(h, q, s, now, |h.parent|);
    if AnyTransition(q) {
      var r := Apply(h, q, s, now, |h.parent|);
      forall m | 0 <= m < |h.owner| ensures GoodMode(h, s, r, |h.parent|, m) { }
      GoodAtTheEnd(h, s, r);
    }
  }

  lemma GoodAtTheEnd(h: Hierarchy, s0: Status, s: Status)
    requires h.Valid() && Shaped(h, s0) && Shaped(h, s) && forall m | 0 <= m < |h.owner| :: GoodMode(h, s0, s, |h.parent|, m)
    ensures CacheOk(h, s) && OnceOk(s) && RequestOk(s) && HadKept(s0, s)
  {
    forall m | 0 <= m < |h.owner|
      ensures s.flags[m].active == Active(h, s.current, m) && !(s.flags[m].needsStartup && s.flags[m].hadStartup)
      ensures s.flags[m].active ==> (s.flags[m].needsStartup ==> s.startup) && (s.flags[m].needsReset ==> s.reset)
      ensures s0.flags[m].hadStartup ==> s.flags[m].hadStartup
    {
      assert GoodMode(h, s0, s, |h.parent|, m);
    }
  }

  lemma {:induction false} HandleIs(h: Hierarchy, s: Status, n: nat)
    requires h.Valid() && Shaped(h, s) && n <= |h.parent|
    ensures forall m | 0 <= m < |h.owner| :: HandleFlags(h, s, n)[m] ==
              var f := s.flags[m];
              if h.owner[m] < n && s.current[h.owner[m]] == m && f.active
              then Flags(true, false, f.hadStartup || f.needsStartup, false) else f
  {
    if n > 0 { HandleIs(h, s, n - 1); }
  }

  /** The handler clears exactly the flags whose reactions it has triggered. */
  lemma HandleExactly(h: Hierarchy, s: Status)
    requires h.Valid() && Shaped(h, s) && CacheOk(h, s) && OnceOk(s) && RequestOk(s)
    ensures var r := Handle(h, s);
      && CacheOk(h, r) && OnceOk(r) && RequestOk(r) && HadKept(s, r)
      && (forall m | 0 <= m < |h.owner| ::
            && (m in StartsUp(s) <==> s.flags[m].needsStartup && !r.flags[m].needsStartup)
            && (m in StartsUp(s) <==> !s.flags[m].hadStartup && r.flags[m].hadStartup)
            && (m in Resets(s) <==> s.flags[m].needsReset && !r.flags[m].needsReset))
  {
    HandleIs(h, s, |h.parent|);
    assert forall m | 0 <= m < |h.owner| && s.flags[m].active :: s.current[h.owner[m]] == m;
  }

  // ---- runs ----

  /** A reaction asks for a transition, an event is queued, the step that performs transitions (with
      the events that the scheduler queues in it), or the handler. */
  datatype Act = SetMode(i: nat, m: nat, c: Change) | Queue(e: Event) | Step(now: int, requeued: seq<Event>) | Trigger

  /** starts logs, per handler call, the modes whose startup reactions it triggered. */
  datatype World = World(plan: Plan, status: Status, starts: seq<set<nat>>, queue: seq<Event>, suspended: seq<Event>)

  predicate Enabled(h: Hierarchy, a: Act) {
    a.SetMode? ==> a.i < |h.parent| && a.m < |h.owner| && h.owner[a.m] == a.i
  }

  function Begin(h: Hierarchy): (w: World)
    requires h.Valid()
    ensures PlanShaped(h, w.plan) && Shaped(h, w.status)
  {
    World(Plan(seq(|h.parent|, _ => None), seq(|h.parent|, _ => NoTransition)), Initialized(h), [], [], [])
  }

  function Next(h: Hierarchy, w: World, a: Act): (r: World)
    requires h.Valid() && PlanShaped(h, w.plan) && Shaped(h, w.status) && Enabled(h, a)
    ensures PlanShaped(h, r.plan) && Shaped(h, r.status)
  {
    match a
    case SetMode(i, m, c) => w.(plan := Plan(w.plan.next[i := Some(m)], w.plan.change[i := c]))
    case Queue(e) => w.(queue := w.queue + [e])
    case Step(now, requeued) =>
      var (p, s) := Process(h, w.plan, w.status, now);
      var q, before := Cascade(h, w.plan, |h.parent|), w.queue + requeued;
      if AnyTransition(q) then
        w.(plan := p, status := s, queue := Surviving(s.flags, before),
           suspended := Reversed(Suspended(s.flags, before)) + Remaining(q.next, w.suspended, |h.parent|))
      else w.(plan := p, status := s, queue := before)
    case Trigger => w.(status := Handle(h, w.status), starts := w.starts + [StartsUp(w.status)])
  }

  function Run(h: Hierarchy, acts: seq<Act>): (w: World)
    requires h.Valid() && forall i | 0 <= i < |acts| :: Enabled(h, acts[i])
    ensures PlanShaped(h, w.plan) && Shaped(h, w.status)
  {
    if acts == [] then Begin(h) else Next(h, Run(h, acts[..|acts| - 1]), acts[|acts| - 1])
  }

  ghost predicate HadAll(modes: set<nat>, s: Status) {
    forall m | m in modes :: m < |s.flags| && s.flags[m].hadStartup
  }

  /** Startups are logged once, and a logged mode had its startup. */
  ghost predicate StartsOk(starts: seq<set<nat>>, s: Status) {
    && (forall i | 0 <= i < |starts| :: HadAll(starts[i], s))
    && (forall i, j | 0 <= i < j < |starts| :: starts[i] !! starts[j])
  }

  ghost predicate Inv(h: Hierarchy, w: World)
    requires h.Valid() && Shaped(h, w.status)
  {
    CacheOk(h, w.status) && OnceOk(w.status) && RequestOk(w.status) && StartsOk(w.starts, w.status)
  }

  lemma StepKeeps(h: Hierarchy, w: World, now: int, requeued: seq<Event>)
    requires h.Valid() && PlanShaped(h, w.plan) && Shaped(h, w.status) && Inv(h, w)
    ensures Inv(h, Next(h, w, Step(now, requeued)))
  {
    ProcessKeeps(h, w.plan, w.status, now);
    HadStays(w.starts, w.status, Next(h, w, Step(now, requeued)).status);
  }

  lemma HadStays(starts: seq<set<nat>>, s: Status, r: Status)
    requires StartsOk(starts, s) && HadKept(s, r)
    ensures StartsOk(starts, r)
  {
    forall i | 0 <= i < |starts| ensures HadAll(starts[i], r) { assert HadAll(starts[i], s); }
  }

  lemma TriggerKeeps(h: Hierarchy, w: World)
    requires h.Valid() && PlanShaped(h, w.plan) && Shaped(h, w.status) && Inv(h, w)
    ensures Inv(h, Next(h, w, Trigger))
  {
    var s := w.status;
    HandleExactly(h, s);
    var r := Next(h, w, Trigger);
    HadStays(w.starts, s, r.status);
    assert HadAll(StartsUp(s), r.status);
    forall i | 0 <= i < |w.starts| ensures w.starts[i] !! StartsUp(s) { assert HadAll(w.starts[i], s); }
  }

  lemma InitIsFine(h: Hierarchy)
    requires h.Valid() && InitOk(h, h.initial, Initialized(h).flags, |h.parent|)
    ensures var s := Initialized(h); CacheOk(h, s) && OnceOk(s) && RequestOk(s)
  {
    var s := Initialized(h);
    forall m | 0 <= m < |h.owner|
      ensures s.flags[m].active == Active(h, s.current, m) && !s.flags[m].hadStartup && !s.flags[m].needsReset
    {
      assert InitMode(h, h.initial, s.flags, |h.parent|, m);
    }
  }

  lemma {:induction false} RunKeeps(h: Hierarchy, acts: seq<Act>)
    requires h.Valid() && forall i | 0 <= i < |acts| :: Enabled(h, acts[i])
    ensures Inv(h, Run(h, acts))
  {
    if acts == [] {
      InitSets(h, |h.parent|);
      InitIsFine(h);
    } else {
      var w, a := Run(h, acts[..|acts| - 1]), acts[|acts| - 1];
      RunKeeps(h, acts[..|acts| - 1]);
      match a
      case SetMode(_, _, _) =>
      case Queue(_) =>
      case Step(now, requeued) => StepKeeps(h, w, now, requeued);
      case Trigger => TriggerKeeps(h, w);
    }
  }

  /** After initialization and any run, the cached activity of every mode is the parent-chain walk. */
  lemma CacheIsTheWalk(h: Hierarchy, acts: seq<Act>, m: nat)
    requires h.Valid() && (forall i | 0 <= i < |acts| :: Enabled(h, acts[i])) && m < |h.owner|
    ensures Run(h, acts).status.flags[m].active <==> Active(h, Run(h, acts).status.current, m)
  {
    RunKeeps(h, acts);
  }

  /** Over any run: never both flags, each mode started by at most one handler call, and no pending
      flag of an active mode without its request bit. */
  lemma StartupOnce(h: Hierarchy, acts: seq<Act>)
    requires h.Valid() && forall i | 0 <= i < |acts| :: Enabled(h, acts[i])
    ensures var w := Run(h, acts); OnceOk(w.status) && RequestOk(w.status) && StartsOk(w.starts, w.status)
  {
    RunKeeps(h, acts);
  }

  // ---- hierarchical reset ----

  /** Reactor i lies, at any depth, inside mode m. */
  ghost predicate Below(h: Hierarchy, i: nat, m: nat)
    requires h.Valid() && i < |h.parent|
    decreases i
  {
    h.parent[i].Some? && (h.parent[i].value == m || Below(h, h.owner[h.parent[i].value], m))
  }

  /** The plan of reactor i is settled once i is done, and not touched before. */
  lemma {:induction false} CascadeFrame(h: Hierarchy, p: Plan, n: nat, k: nat)
    requires h.Valid() && PlanShaped(h, p) && n <= k <= |h.parent|
    ensures forall i | 0 <= i < n :: Cascade(h, p, k).next[i] == Cascade(h, p, n).next[i]
                                     && Cascade(h, p, k).change[i] == Cascade(h, p, n).change[i]
  {
    if n < k { CascadeFrame(h, p, n, k - 1); }
  }

  lemma CascadeAt(h: Hierarchy, p: Plan, i: nat)
    requires h.Valid() && PlanShaped(h, p) && i < |h.parent|
    ensures var q := Cascade(h, p, |h.parent|);
      EntersByReset(h, q, h.parent[i]) ==> q.next[i] == Some(h.initial[i]) && q.change[i] == Reset
  {
    CascadeFrame(h, p, i, |h.parent|);
    CascadeFrame(h, p, i + 1, |h.parent|);
  }

  /** The cascade reaches every reactor that stays inside the modes entered. */
  lemma {:induction false} CascadeReaches(h: Hierarchy, p: Plan, s: Status, now: int, i: nat, m: nat)
    requires h.Valid() && PlanShaped(h, p) && Shaped(h, s) && CacheOk(h, s) && OnceOk(s)
    requires i < |h.parent| && m < |h.owner| && Below(h, i, m)
    requires var q := Cascade(h, p, |h.parent|);
      && EntersByReset(h, q, Some(m))
      && Active(h, Apply(h, q, s, now, |h.parent|).current, h.parent[i].value)
    ensures var q := Cascade(h, p, |h.parent|); q.next[i] == Some(h.initial[i]) && q.change[i] == Reset
    decreases i
  {
    var q := Cascade(h, p, |h.parent|);
    var around := h.parent[i].value;
    if around != m {
      CascadeReaches(h, p, s, now, h.owner[around], m);
      ApplyKeepsGood(h, q, s, now, |h.parent|);
    }
    CascadeAt(h, p, i);
  }

  /** After a transition step every active reactor inside a mode entered by reset, however deep, is
      in its initial mode. */
  lemma HierarchicalReset(h: Hierarchy, p: Plan, s: Status, now: int, i: nat, m: nat)
    requires h.Valid() && PlanShaped(h, p) && Shaped(h, s) && CacheOk(h, s) && OnceOk(s) && RequestOk(s)
    requires i < |h.parent| && m < |h.owner| && Below(h, i, m)
    requires EntersByReset(h, Cascade(h, p, |h.parent|), Some(m))
    requires Process(h, p, s, now).1.flags[Process(h, p, s, now).1.current[i]].active
    ensures Process(h, p, s, now).1.current[i] == h.initial[i]
  {
    var q := Cascade(h, p, |h.parent|);
    assert AnyTransition(q) by { assert q.next[h.owner[m]].Some?; }
    ProcessKeeps(h, p, s, now);
    var r := Process(h, p, s, now).1;
    assert Active(h, r.current, r.current[i]);
    CascadeReaches(h, p, s, now, i, m);
    ApplyKeepsGood(h, q, s, now, |h.parent|);
  }

  // ---- suspended events ----

  lemma {:induction false} RemainingAre(next: seq<Option<nat>>, suspended: seq<Event>, n: nat, e: Event)
    requires n <= |next|
    ensures e in Remaining(next, suspended, n) <==> e in suspended && (e.mode.Some? ==> e.mode !in next[..n])
  {
    if n > 0 {
      RemainingAre(next, suspended, n - 1, e);
      assert next[..n] == next[..n - 1] + [next[n - 1]];
      if next[n - 1].Some? { WithoutAre(Remaining(next, suspended, n - 1), next[n - 1], e); }
    }
  }

  lemma {:induction false} WithoutAre(events: seq<Event>, m: Option<nat>, e: Event)
    ensures e in Without(events, m) <==> e in events && e.mode != m
  {
    if events != [] { WithoutAre(events[1..], m, e); }
  }

  lemma {:induction false} PickedAre(events: seq<Event>, m: Option<nat>, change: Change, moved: bool, e: Event)
    ensures e in Picked(events, m, change, moved) <==> e in events && e.mode == m && GoesBack(change, moved, e)
  {
    if events != [] { PickedAre(events[1..], m, change, moved, e); }
  }

  lemma {:induction false} OneShotsAre(timers: seq<Event>, m: Option<nat>, change: Change, e: Event)
    ensures e in OneShots(timers, m, change) <==> e in timers && e.mode == m && change == Reset
  {
    if timers != [] && change == Reset { OneShotsAre(timers[1..], m, change, e); }
  }

  /** Reactor i hands e to the scheduler: its mode is entered, and e is a one-shot timer or a suspended
      timer of a mode entered by reset, or a suspended event of a mode newly entered by history. */
  predicate HandsOver(p: Plan, current: seq<nat>, timers: seq<Event>, suspended: seq<Event>, e: Event, i: nat)
    requires |p.next| == |p.change| == |current| && i < |p.next|
  {
    && p.next[i].Some? && p.next[i] == e.mode
    && (|| (p.change[i] == Reset && (e in timers || (e in suspended && e.isTimer)))
        || (p.change[i] != Reset && p.next[i] != Some(current[i]) && e in suspended))
  }

  /** Exactly the events of entered modes that the kind of entry brings back are handed over. */
  lemma {:induction false} HandedIff(h: Hierarchy, p: Plan, current: seq<nat>, timers: seq<Event>, suspended: seq<Event>, n: nat, e: Event)
    requires h.Valid() && PlanShaped(h, p) && |current| == |h.parent| && n <= |h.parent|
    ensures e in Handed(p, current, timers, suspended, n) <==>
            exists i :: 0 <= i < n && HandsOver(p, current, timers, suspended, e, i)
  {
    if n > 0 {
      var m := p.next[n - 1];
      HandedIff(h, p, current, timers, suspended, n - 1, e);
      OneShotsAre(timers, m, p.change[n - 1], e);
      PickedAre(Remaining(p.next, suspended, n - 1), m, p.change[n - 1], m != Some(current[n - 1]), e);
      RemainingAre(p.next, suspended, n - 1, e);
      if m.Some? && m == e.mode {
        forall i | 0 <= i < n - 1 ensures p.next[i] != m { assert p.next[i].Some? ==> h.owner[p.next[i].value] == i; }
      }
      assert HandsOver(p, current, timers, suspended, e, n - 1) <==>
             m.Some? && m == e.mode
             && ((p.change[n - 1] == Reset && e in timers) || (e in suspended && GoesBack(p.change[n - 1], m != Some(current[n - 1]), e)));
    }
  }

  /** The modes all reactors are in after a transition step. */
  function Targets(q: Plan, current: seq<nat>): (r: seq<nat>)
    requires |q.next| == |current|
    ensures |r| == |current|
  {
    seq(|current|, i requires 0 <= i < |current| => Target(q, current, |current|, i))
  }

  lemma StepCurrents(h: Hierarchy, p: Plan, s: Status, now: int)
    requires h.Valid() && PlanShaped(h, p) && Shaped(h, s) && CacheOk(h, s) && OnceOk(s)
    ensures Process(h, p, s, now).1.current == Targets(Cascade(h, p, |h.parent|), s.current)
  {
    var q := Cascade(h, p, |h.parent|);
    if AnyTransition(q) {
      ApplyKeepsGood(h, q, s, now, |h.parent|);
    } else {
      assert forall i | 0 <= i < |q.next| :: q.next[i].None?;
    }
  }

  /** The mode is left out by the step and becomes active all the same. */
  ghost predicate Revived(h: Hierarchy, q: Plan, current: seq<nat>, m: nat)
    requires h.Valid() && PlanShaped(h, q) && InOwnModes(h, current) && InOwnModes(h, Targets(q, current)) && m < |h.owner|
  {
    Some(m) !in q.next && !Active(h, current, m) && Active(h, Targets(q, current), m)
  }

  lemma TargetsAreOwn(h: Hierarchy, q: Plan, current: seq<nat>)
    requires h.Valid() && PlanShaped(h, q) && InOwnModes(h, current)
    ensures InOwnModes(h, Targets(q, current))
  {
  }

  /** From the state before the step: an event is suspended after it, its mode having become active,
      exactly when it was suspended before and its mode is revived without being entered. More
      generally it is suspended with its mode active exactly when it was suspended before, its mode is
      not entered, and the mode is active among the modes the reactors move to. */
  lemma SuspendedYetActiveIff(h: Hierarchy, p: Plan, s: Status, now: int, queue: seq<Event>, suspended: seq<Event>, e: Event)
    requires h.Valid() && PlanShaped(h, p) && Shaped(h, s) && CacheOk(h, s) && OnceOk(s) && RequestOk(s)
    requires e.mode.Some? && e.mode.value < |h.owner|
    ensures var q, r, m := Cascade(h, p, |h.parent|), Process(h, p, s, now).1, e.mode.value;
      var stuck := e in Reversed(Suspended(r.flags, queue)) + Remaining(q.next, suspended, |h.parent|) && r.flags[m].active;
      && InOwnModes(h, Targets(q, s.current))
      && (stuck <==> e in suspended && e.mode !in q.next && Active(h, Targets(q, s.current), m))
      && (stuck && !s.flags[m].active <==> e in suspended && Revived(h, q, s.current, m))
  {
    var q, r, m := Cascade(h, p, |h.parent|), Process(h, p, s, now).1, e.mode.value;
    ProcessKeeps(h, p, s, now);
    StepCurrents(h, p, s, now);
    SuspendedMember(r.flags, queue, e);
    RemainingAre(q.next, suspended, |h.parent|, e);
    assert q.next[..|h.parent|] == q.next;
  }

  lemma SuspendedMember(flags: seq<Flags>, queue: seq<Event>, e: Event)
    ensures e in Reversed(Suspended(flags, queue)) <==> e in queue && Suspends(flags, e)
  {
    SuspendedAre(flags, queue);
    ReversedAre(Suspended(flags, queue), e);
    assert e in Suspended(flags, queue) <==> multiset(Suspended(flags, queue))[e] > 0;
    assert e in queue <==> multiset(queue)[e] > 0;
  }

  lemma {:induction false} ReversedAre(s: seq<Event>, e: Event)
    ensures e in Reversed(s) <==> e in s
  {
    if s != [] { ReversedAre(s[..|s| - 1], e); }
  }

  /** The suspended list holds the events put on it last first. */
  lemma {:induction false} ReversedAt(s: seq<Event>, k: nat)
    requires k < |s|
    ensures |Reversed(s)| == |s| && Reversed(s)[k] == s[|s| - 1 - k]
  {
    if |s| > 1 { ReversedAt(s[..|s| - 1], if k > 0 then k - 1 else 0); }
  }

  /** A mode is revived only through an enclosing mode that is entered. */
  lemma {:induction false} RevivedFromOutside(h: Hierarchy, q: Plan, current: seq<nat>, m: nat) returns (a: nat)
    requires h.Valid() && PlanShaped(h, q) && InOwnModes(h, current) && InOwnModes(h, Targets(q, current)) && m < |h.owner|
    requires Revived(h, q, current, m)
    ensures a < |h.owner| && Below(h, h.owner[m], a) && q.next[h.owner[a]] == Some(a)
    decreases h.owner[m]
  {
    var i := h.owner[m];
    assert Targets(q, current)[i] == m;
    assert q.next[i] != Some(m);
    assert current[i] == m;
    var around := h.parent[i].value;
    if q.next[h.owner[around]] == Some(around) {
      a := around;
    } else {
      assert Some(around) !in q.next;
      a := RevivedFromOutside(h, q, current, around);
    }
  }

  // ---- a run in which an event stays suspended ----

  const NESTED := Hierarchy([0, 0, 1], [None, Some(0)], [0, 2])

  /** A request to reactor 0 of the nested hierarchy and the step that grants it. */
  lemma Leave(w: World, m: nat, now: int)
    requires NESTED.Valid() && PlanShaped(NESTED, w.plan) && Shaped(NESTED, w.status) && Inv(NESTED, w)
    requires w.plan.next == [None, None] && m < 2
    ensures Enabled(NESTED, SetMode(0, m, History))
    ensures var r := Next(NESTED, Next(NESTED, w, SetMode(0, m, History)), Step(now, []));
      && Inv(NESTED, r) && r.plan.next == [None, None] && r.status.current == [m, w.status.current[1]]
      && forall e: Event | e.mode == Some(2) ::
           e in r.suspended <==> e in w.suspended || (e in w.queue && !r.status.flags[2].active)
  {
    var w1 := Next(NESTED, w, SetMode(0, m, History));
    var q := Cascade(NESTED, w1.plan, 2);
    LeavePlan(w1.plan, m);
    StepKeeps(NESTED, w1, now, []);
    StepCurrents(NESTED, w1.plan, w1.status, now);
    var r := Next(NESTED, w1, Step(now, []));
    assert Targets(q, w.status.current) == [m, w.status.current[1]];
    assert w1.queue + [] == w.queue;
    forall e: Event | e.mode == Some(2) ensures e in r.suspended <==> e in w.suspended || (e in w.queue && !r.status.flags[2].active) {
      SuspendedMember(r.status.flags, w.queue, e);
      RemainingAre(q.next, w.suspended, 2, e);
      assert q.next[..2] == [Some(m), None];
    }
  }

  lemma LeavePlan(p: Plan, m: nat)
    requires NESTED.Valid() && PlanShaped(NESTED, p) && p.next == [Some(m), None] && p.change[0] == History && m < 2
    ensures Cascade(NESTED, p, 2) == p && AnyTransition(p) && Cleared(p, 2).next == [None, None]
  {
    assert Cascade(NESTED, p, 1) == p;
    assert p.next[0].Some?;
  }

  lemma InnerActivity(r: Status, m: nat)
    requires NESTED.Valid() && Shaped(NESTED, r) && CacheOk(NESTED, r) && r.current == [m, 2] && m < 2
    ensures r.flags[2].active <==> m == 0
  {
    assert Active(NESTED, r.current, 2) <==> Active(NESTED, r.current, 0);
  }

  /** It does happen: reactor 1 is in mode 2 inside mode 0 of reactor 0, with an event queued. Reactor 0
      leaves mode 0, comes back by history, mode 2 is active again, and its event stays suspended. */
  lemma SuspendedYetActiveExample(e: Event) returns (acts: seq<Act>)
    requires e.mode == Some(2)
    ensures NESTED.Valid() && (forall i | 0 <= i < |acts| :: Enabled(NESTED, acts[i]))
    ensures Run(NESTED, acts).status.flags[2].active && e in Run(NESTED, acts).suspended
  {
    acts := [Queue(e)];
    RunKeeps(NESTED, acts);
    assert acts[..|acts| - 1] == [] && Run(NESTED, []) == Begin(NESTED);
    assert Run(NESTED, acts) == Next(NESTED, Begin(NESTED), Queue(e));
    acts := LeaveRun(acts, 1, 5);
    InnerActivity(Run(NESTED, acts).status, 1);
    acts := LeaveRun(acts, 0, 9);
    InnerActivity(Run(NESTED, acts).status, 0);
  }

  lemma LeaveRun(acts: seq<Act>, m: nat, now: int) returns (more: seq<Act>)
    requires NESTED.Valid() && m < 2 && forall i | 0 <= i < |acts| :: Enabled(NESTED, acts[i])
    requires var w := Run(NESTED, acts); w.plan.next == [None, None] && Inv(NESTED, w)
    ensures forall i | 0 <= i < |more| :: Enabled(NESTED, more[i])
    ensures var w, r := Run(NESTED, acts), Run(NESTED, more);
      && Inv(NESTED, r) && r.plan.next == [None, None] && r.status.current == [m, w.status.current[1]]
      && forall e: Event | e.mode == Some(2) ::
           e in r.suspended <==> e in w.suspended || (e in w.queue && !r.status.flags[2].active)
  {
    var one, two := SetMode(0, m, History), Step(now, []);
    more := acts + [one, two];
    assert more[..|more| - 1] == acts + [one] && (acts + [one])[..|acts|] == acts;
    assert Run(NESTED, acts + [one]) == Next(NESTED, Run(NESTED, acts), one);
    Leave(Run(NESTED, acts), m, now);
  }
}
