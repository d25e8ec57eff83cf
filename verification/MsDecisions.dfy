/** The live decisions of the master scheduler: budgets per logical time, sequenced commands,
    guard hysteresis, and the record they leave. */
module MsDecisions {
  import opened Wrappers
  import opened MsTypes

  datatype Policy = Policy(low: bool, degradable: bool)

  datatype Command = Command(seqNo: int, budget: int)

  /** The settings read at start-up. policies holds the listed reactions only. */
  datatype Config = Config(
    startTime: int, initialBudget: int, policies: map<nat, Policy>,
    degrade: bool, skipAction: bool, cap: bool,
    ctrl: bool, summary: bool,
    guard: bool, guardOnNs: int, guardOffNs: int, guardBudget: int,
    lagShedding: bool, lagNs: int,
    pressureLag: int, pressureReady: int)
  {
    /** What _ms_link_init refuses to start without. */
    predicate Valid() {
      && (cap || guard ==> degrade && skipAction && initialBudget >= 0)
      && (ctrl || lagShedding || summary ==> degrade && skipAction)
      && (guard ==> 0 < guardOffNs <= guardOnNs && guardBudget >= 0)
      && (lagShedding ==> lagNs > 0)
    }

    /** Whether the start of a logical time is looked for at all. */
    predicate Tagged() { ctrl || guard || summary }

    predicate Sheddable(r: nat) { r in policies && policies[r].low && policies[r].degradable }

    function KeyOf(time: int, microstep: nat, r: nat): Key { Key(0, time - startTime, microstep, r) }
  }

  datatype Control = Control(
    budget: int, pending: Option<Command>, pendingRecv: int, lastSeq: int, appliedSeq: int,
    guardOn: bool, lastLag: int, seenLogical: bool, lastLogical: int)

  datatype Window = Window(start: int, used: nat)

  datatype State = State(
    control: Control, window: Window, pressure: bool, kept: int, shed: int, violations: int, record: seq<Line>)

  function Initial(cfg: Config): State {
    State(Control(cfg.initialBudget, None, 0, -1, -1, false, 0, false, 0), Window(0, 0), false, 0, 0, 0, [])
  }

  /** One critical section of the master scheduler's lock. now and recv are clock readings;
      Decide is the second section of ms_should_skip_reaction, whose first is a Begin. */
  datatype Step =
    | Accept(parsed: bool, seqNo: int, budget: int, recv: int)
    | Sample(lag: int, readyLen: int)
    | Begin(t: int, m: nat, now: int)
    | Decide(t: int, m: nat, r: nat, physical: int)
    | Violate(t: int, m: nat, r: nat, now: int)

  // ---- _ms_tag_begin_locked ----

  predicate GuardNext(cfg: Config, on: bool, lag: int) {
    if on then lag >= cfg.guardOffNs else lag >= cfg.guardOnNs
  }

  predicate IsNewTime(c: Control, t: int) { !(c.seenLogical && c.lastLogical == t) }

  function BeginControl(cfg: Config, c: Control, t: int): Control {
    if !cfg.Tagged() || !IsNewTime(c, t) then c
    else
      var c1 := c.(seenLogical := true, lastLogical := t,
                   guardOn := if cfg.guard then GuardNext(cfg, c.guardOn, c.lastLag) else c.guardOn);
      if cfg.ctrl && c.pending.Some? then
        c1.(pending := None, budget := c.pending.value.budget, appliedSeq := c.pending.value.seqNo)
      else c1
  }

  function GuardLines(cfg: Config, on: bool, lag: int, t: int, m: nat): seq<Line> {
    if cfg.guard && GuardNext(cfg, on, lag) != on then [G(t - cfg.startTime, m, !on, lag)] else []
  }

  function CommandLines(cfg: Config, pending: Option<Command>, recv: int, t: int, m: nat, now: int): seq<Line> {
    if cfg.ctrl && pending.Some?
    then [M(pending.value.seqNo, pending.value.budget, t - cfg.startTime, m, recv, now)] else []
  }

  function BeginLines(cfg: Config, c: Control, t: int, m: nat, now: int): seq<Line> {
    if !cfg.Tagged() || !IsNewTime(c, t) then []
    else GuardLines(cfg, c.guardOn, c.lastLag, t, m) + CommandLines(cfg, c.pending, c.pendingRecv, t, m, now)
  }

  function BeginStep(cfg: Config, s: State, t: int, m: nat, now: int): State {
    s.(control := BeginControl(cfg, s.control, t), record := s.record + BeginLines(cfg, s.control, t, m, now))
  }

  // ---- _ms_ctrl_accept ----

  predicate Acceptable(lastSeq: int, e: Step) { e.Accept? && e.parsed && e.seqNo > lastSeq && e.budget >= 0 }

  function AcceptStep(s: State, e: Step): State
    requires e.Accept?
  {
    if Acceptable(s.control.lastSeq, e) then
      s.(control := s.control.(lastSeq := e.seqNo, pending := Some(Command(e.seqNo, e.budget)), pendingRecv := e.recv),
         record := s.record + [C(e.seqNo, e.budget, e.recv)])
    else s.(record := s.record + [R(e.recv)])
  }

  // ---- ms_on_metrics, as far as decisions read it ----

  function SampleStep(cfg: Config, s: State, lag: int, readyLen: int): State {
    s.(control := s.control.(lastLag := lag),
       pressure := cfg.degrade &&
         ((cfg.pressureLag >= 0 && lag >= cfg.pressureLag) ||
          (cfg.pressureReady >= 0 && readyLen >= 0 && readyLen >= cfg.pressureReady)))
  }

  // ---- ms_should_skip_reaction without replay ----

  function BudgetInForce(cfg: Config, c: Control): int {
    if c.guardOn && cfg.guardBudget < c.budget then cfg.guardBudget else c.budget
  }

  function Enter(w: Window, t: int): Window { if w.start != t then Window(t, 0) else w }

  predicate LateShed(cfg: Config, e: Step)
    requires e.Decide?
  {
    cfg.lagShedding && cfg.Sheddable(e.r) && e.physical - e.t > cfg.lagNs
  }

  predicate Budgeted(cfg: Config, s: State, e: Step)
    requires e.Decide?
  {
    cfg.degrade && cfg.skipAction && !LateShed(cfg, e) && (s.pressure || cfg.cap) && cfg.Sheddable(e.r)
  }

  /** The answer: the reaction is shed. */
  predicate Skips(cfg: Config, s: State, e: Step)
    requires e.Decide?
  {
    && cfg.degrade && cfg.skipAction
    && (LateShed(cfg, e) || (Budgeted(cfg, s, e) && Enter(s.window, e.t).used >= BudgetInForce(cfg, s.control)))
  }

  function DecideStep(cfg: Config, s: State, e: Step): State
    requires e.Decide?
  {
    var b := BudgetInForce(cfg, s.control);
    var w := if Budgeted(cfg, s, e) && b >= 0 then Enter(s.window, e.t) else s.window;
    if Skips(cfg, s, e) then
      s.(window := w, shed := s.shed + 1, record := s.record + [D(cfg.KeyOf(e.t, e.m, e.r))])
    else if Budgeted(cfg, s, e) then s.(window := w.(used := w.used + 1), kept := s.kept + 1)
    else s
  }

  // ---- ms_on_reaction_violation without replay ----

  function ViolateStep(cfg: Config, s: State, e: Step): State
    requires e.Violate?
  {
    var s1 := BeginStep(cfg, s, e.t, e.m, e.now);
    s1.(violations := s1.violations + 1, record := s1.record + [X(cfg.KeyOf(e.t, e.m, e.r))])
  }

  function Next(cfg: Config, s: State, e: Step): State {
    match e
    case Accept(_, _, _, _) => AcceptStep(s, e)
    case Sample(lag, readyLen) => SampleStep(cfg, s, lag, readyLen)
    case Begin(t, m, now) => BeginStep(cfg, s, t, m, now)
    case Decide(_, _, _, _) => DecideStep(cfg, s, e)
    case Violate(_, _, _, _) => ViolateStep(cfg, s, e)
  }

  function Run(cfg: Config, steps: seq<Step>): State {
    if steps == [] then Initial(cfg)
    else Next(cfg, Run(cfg, steps[..|steps| - 1]), steps[|steps| - 1])
  }

  /** The record of a completed run: its lines, then the end line of ms_shutdown. */
  function Completed(s: State): seq<Line> {
    s.record + [E(s.shed, s.violations, if s.control.pending.Some? then s.control.pending.value.seqNo else -1)]
  }

  predicate Timed(e: Step) { e.Begin? || e.Decide? || e.Violate? }

  predicate StartsAt(e: Step, t: int) { (e.Begin? || e.Violate?) && e.t == t }

  /** What the runtime guarantees: logical time never goes back, a decision follows its own
      Begin, and commands come only over an open control channel. */
  ghost predicate Paced(cfg: Config, steps: seq<Step>) {
    steps == [] || (Paced(cfg, steps[..|steps| - 1]) && Follows(cfg, steps[..|steps| - 1], steps[|steps| - 1]))
  }

  ghost predicate Follows(cfg: Config, steps: seq<Step>, e: Step) {
    && (e.Accept? ==> cfg.ctrl)
    && (Timed(e) ==> forall i | 0 <= i < |steps| && Timed(steps[i]) :: steps[i].t <= e.t)
    && (e.Decide? ==> exists i :: 0 <= i < |steps| && StartsAt(steps[i], e.t))
  }

  // ---- reference definitions, free of the scheduler's state ----

  /** The last command accepted in a history: parsed, not negative, numbered above its predecessor. */
  function Latest(steps: seq<Step>): Option<Command> {
    if steps == [] then None
    else
      var before, e := Latest(steps[..|steps| - 1]), steps[|steps| - 1];
      if Acceptable(if before.Some? then before.value.seqNo else -1, e) then Some(Command(e.seqNo, e.budget)) else before
  }

  function Commanded(cfg: Config, c: Option<Command>): int {
    if c.Some? then c.value.budget else cfg.initialBudget
  }

  function LatestLag(steps: seq<Step>): int {
    if steps == [] then 0
    else if steps[|steps| - 1].Sample? then steps[|steps| - 1].lag
    else LatestLag(steps[..|steps| - 1])
  }

  /** The position of the first step at logical time t, or the length of the history. */
  function StartOf(steps: seq<Step>, t: int): (n: nat)
    ensures n <= |steps|
    ensures n < |steps| ==> StartsAt(steps[n], t)
    ensures forall i | 0 <= i < n :: !StartsAt(steps[i], t)
  {
    if steps == [] then 0
    else
      var n := StartOf(steps[..|steps| - 1], t);
      if n < |steps| - 1 || StartsAt(steps[|steps| - 1], t) then n else |steps|
  }

  /** The lag read at the start of each logical time so far. */
  function StartLags(steps: seq<Step>): seq<int> {
    if steps == [] then []
    else
      var before, e := steps[..|steps| - 1], steps[|steps| - 1];
      if (e.Begin? || e.Violate?) && StartOf(before, e.t) == |before| then StartLags(before) + [LatestLag(before)]
      else StartLags(before)
  }

  /** Hysteresis: some reading reached the upper threshold and none since fell below the lower one. */
  ghost predicate GuardHolds(cfg: Config, lags: seq<int>) {
    exists j :: 0 <= j < |lags| && lags[j] >= cfg.guardOnNs && forall k | j <= k < |lags| :: lags[k] >= cfg.guardOffNs
  }

  /** The budget of logical time t: the command accepted last before t started, or the initial
      budget, capped by the guard if it holds then. */
  ghost function BudgetAt(cfg: Config, steps: seq<Step>, t: int): int {
    var n := StartOf(steps, t);
    var b := Commanded(cfg, Latest(steps[..n]));
    if cfg.guard && n < |steps| && GuardHolds(cfg, StartLags(steps[..n + 1])) && cfg.guardBudget < b
    then cfg.guardBudget else b
  }

  /** The metrics sample taken last reached a threshold; a negative threshold is off. */
  predicate Pressed(cfg: Config, steps: seq<Step>) {
    if steps == [] then false
    else if steps[|steps| - 1].Sample? then
      var e := steps[|steps| - 1];
      cfg.degrade && (0 <= cfg.pressureLag <= e.lag || 0 <= cfg.pressureReady <= e.readyLen)
    else Pressed(cfg, steps[..|steps| - 1])
  }

  /** Only low, degradable, listed reactions can be shed, and only by a scheduler that degrades by skipping. */
  predicate MayShed(cfg: Config, r: nat) {
    cfg.degrade && cfg.skipAction && r in cfg.policies && cfg.policies[r] == Policy(true, true)
  }

  /** Dispatched more than the tolerated lag after its logical time. */
  predicate TooLate(cfg: Config, e: Step)
    requires e.Decide?
  {
    cfg.lagShedding && e.t + cfg.lagNs < e.physical
  }

  /** The decision e, taken after steps, asks for a share of the budget of its logical time. */
  predicate Competes(cfg: Config, steps: seq<Step>, e: Step) {
    e.Decide? && MayShed(cfg, e.r) && !TooLate(cfg, e) && (cfg.cap || Pressed(cfg, steps))
  }

  function Competing(cfg: Config, steps: seq<Step>, t: int): nat {
    if steps == [] then 0
    else
      var before, e := steps[..|steps| - 1], steps[|steps| - 1];
      Competing(cfg, before, t) + if Competes(cfg, before, e) && e.t == t then 1 else 0
  }

  /** The rule for shedding: too late, or one of more than the budget of its logical time allows. */
  ghost predicate Due(cfg: Config, steps: seq<Step>, e: Step)
    requires e.Decide?
  {
    && MayShed(cfg, e.r)
    && (TooLate(cfg, e) || (Competes(cfg, steps, e) && Competing(cfg, steps, e.t) >= BudgetAt(cfg, steps, e.t)))
  }

  /** The competing decisions at logical time t that the rule spares. */
  ghost function Granted(cfg: Config, steps: seq<Step>, t: int): nat {
    if steps == [] then 0
    else
      var before, e := steps[..|steps| - 1], steps[|steps| - 1];
      Granted(cfg, before, t) + if Competes(cfg, before, e) && e.t == t && !Due(cfg, before, e) then 1 else 0
  }

  /** The sheddable dispatches decided at logical time t. */
  function Dispatches(cfg: Config, steps: seq<Step>, t: int): nat {
    if steps == [] then 0
    else
      var e := steps[|steps| - 1];
      Dispatches(cfg, steps[..|steps| - 1], t) + if e.Decide? && e.t == t && cfg.Sheddable(e.r) then 1 else 0
  }

  /** Those of them that were kept. */
  function Kept(cfg: Config, steps: seq<Step>, t: int): nat {
    if steps == [] then 0
    else
      var before, e := steps[..|steps| - 1], steps[|steps| - 1];
      Kept(cfg, before, t) +
        if e.Decide? && e.t == t && cfg.Sheddable(e.r) && !Skips(cfg, Run(cfg, before), e) then 1 else 0
  }

  // ---- the invariant ----

  /** The logical time in progress. */
  function Current(steps: seq<Step>): Option<int> {
    if steps == [] then None
    else
      var e := steps[|steps| - 1];
      if e.Begin? || e.Violate? then Some(e.t) else Current(steps[..|steps| - 1])
  }

  /** The command in force at the logical time in progress. */
  function InForce(steps: seq<Step>): Option<Command> {
    if steps == [] then None
    else
      var before, e := steps[..|steps| - 1], steps[|steps| - 1];
      if (e.Begin? || e.Violate?) && StartOf(before, e.t) == |before| then Latest(before) else InForce(before)
  }

  lemma {:induction false} CurrentIsLatest(cfg: Config, steps: seq<Step>)
    requires Paced(cfg, steps)
    ensures forall i | 0 <= i < |steps| && Timed(steps[i]) :: Current(steps).Some? && steps[i].t <= Current(steps).value
    ensures Current(steps).Some? ==> StartOf(steps, Current(steps).value) < |steps|
  {
    if steps != [] { CurrentIsLatest(cfg, steps[..|steps| - 1]); }
  }

  /** A logical time not in progress has not started yet, if it is not before the one in progress. */
  lemma FreshTime(cfg: Config, steps: seq<Step>, e: Step)
    requires Paced(cfg, steps) && Follows(cfg, steps, e) && (e.Begin? || e.Violate?)
    ensures StartOf(steps, e.t) == |steps| <==> Current(steps) != Some(e.t)
  {
    CurrentIsLatest(cfg, steps);
    if StartOf(steps, e.t) < |steps| { assert Timed(steps[StartOf(steps, e.t)]); }
    if Current(steps).Some? { assert Timed(steps[StartOf(steps, Current(steps).value)]); }
  }

  ghost predicate ControlOk(cfg: Config, steps: seq<Step>, c: Control) {
    && c.lastLag == LatestLag(steps)
    && (cfg.Tagged() ==> c.seenLogical == Current(steps).Some?)
    && (cfg.Tagged() && c.seenLogical ==> c.lastLogical == Current(steps).value)
    && c.lastSeq == (if Latest(steps).Some? then Latest(steps).value.seqNo else -1)
    && (if c.pending.Some? then Latest(steps) == c.pending else Latest(steps) == InForce(steps))
    && c.budget == Commanded(cfg, InForce(steps))
    && (Latest(steps).Some? ==> cfg.ctrl)
    && c.guardOn == (cfg.guard && GuardHolds(cfg, StartLags(steps)))
  }

  lemma GuardHoldsAppend(cfg: Config, lags: seq<int>, lag: int)
    requires cfg.guardOffNs <= cfg.guardOnNs
    ensures GuardHolds(cfg, lags + [lag]) <==> GuardNext(cfg, GuardHolds(cfg, lags), lag)
  {
    var more := lags + [lag];
    if GuardHolds(cfg, more) {
      var j :| 0 <= j < |more| && more[j] >= cfg.guardOnNs && forall k | j <= k < |more| :: more[k] >= cfg.guardOffNs;
      assert more[|lags|] == lag;
      if j < |lags| { assert forall k | j <= k < |lags| :: lags[k] == more[k]; }
    }
    if GuardHolds(cfg, lags) && lag >= cfg.guardOffNs {
      var j :| 0 <= j < |lags| && lags[j] >= cfg.guardOnNs && forall k | j <= k < |lags| :: lags[k] >= cfg.guardOffNs;
      assert more[j] >= cfg.guardOnNs;
    }
    if lag >= cfg.guardOnNs { assert more[|lags|] >= cfg.guardOnNs; }
  }

  lemma BeginKeepsControl(cfg: Config, steps: seq<Step>, e: Step, c: Control)
    requires cfg.Valid() && Paced(cfg, steps) && Follows(cfg, steps, e) && (e.Begin? || e.Violate?)
    requires ControlOk(cfg, steps, c)
    ensures ControlOk(cfg, steps + [e], BeginControl(cfg, c, e.t))
  {
    var more := steps + [e];
    assert more[..|steps|] == steps;
    FreshTime(cfg, steps, e);
    if cfg.guard { GuardHoldsAppend(cfg, StartLags(steps), c.lastLag); }
  }

  lemma OtherKeepsControl(cfg: Config, steps: seq<Step>, e: Step, s: State)
    requires Follows(cfg, steps, e) && (e.Accept? || e.Sample? || e.Decide?) && ControlOk(cfg, steps, s.control)
    ensures ControlOk(cfg, steps + [e], Next(cfg, s, e).control)
  {
    assert (steps + [e])[..|steps|] == steps;
  }

  lemma {:induction false} ControlHolds(cfg: Config, steps: seq<Step>)
    requires cfg.Valid() && Paced(cfg, steps)
    ensures ControlOk(cfg, steps, Run(cfg, steps).control)
  {
    if steps != [] {
      var before, e := steps[..|steps| - 1], steps[|steps| - 1];
      ControlHolds(cfg, before);
      assert steps == before + [e];
      if e.Begin? || e.Violate? {
        BeginKeepsControl(cfg, before, e, Run(cfg, before).control);
      } else {
        OtherKeepsControl(cfg, before, e, Run(cfg, before));
      }
    }
  }

  /** The budget of the logical time in progress, by the definitions and by the recursion. */
  lemma {:induction false} BudgetOfCurrent(cfg: Config, steps: seq<Step>)
    requires Paced(cfg, steps) && Current(steps).Some?
    ensures BudgetAt(cfg, steps, Current(steps).value) ==
            (var b := Commanded(cfg, InForce(steps));
             if cfg.guard && GuardHolds(cfg, StartLags(steps)) && cfg.guardBudget < b then cfg.guardBudget else b)
  {
    var before, e := steps[..|steps| - 1], steps[|steps| - 1];
    var t := Current(steps).value;
    CurrentIsLatest(cfg, steps);
    var n := StartOf(steps, t);
    if n == |before| {
      assert steps[..n + 1] == steps;
    } else {
      if e.Begin? || e.Violate? { FreshTime(cfg, before, e); }
      BudgetOfCurrent(cfg, before);
      assert steps[..n] == before[..n] && steps[..n + 1] == before[..n + 1];
    }
  }

  /** Once a logical time has started its budget is settled. */
  lemma {:induction false} BudgetIsStable(cfg: Config, steps: seq<Step>, n: nat, t: int)
    requires n <= |steps| && StartOf(steps[..n], t) < n
    ensures BudgetAt(cfg, steps, t) == BudgetAt(cfg, steps[..n], t)
    decreases |steps|
  {
    if n < |steps| {
      var before := steps[..|steps| - 1];
      assert before[..n] == steps[..n];
      BudgetIsStable(cfg, before, n, t);
      StartIsStable(before, n, t);
      var k := StartOf(before, t);
      assert steps[..k] == before[..k] && steps[..k + 1] == before[..k + 1];
    } else {
      assert steps[..n] == steps;
    }
  }

  lemma StartIsStable(steps: seq<Step>, n: nat, t: int)
    requires n <= |steps| && StartOf(steps[..n], t) < n
    ensures StartOf(steps, t) == StartOf(steps[..n], t)
  {
    var k := StartOf(steps[..n], t);
    assert steps[..n][k] == steps[k];
    forall i | 0 <= i < k ensures !StartsAt(steps[i], t) { assert steps[..n][i] == steps[i]; }
  }

  lemma BudgetIsNatural(cfg: Config, steps: seq<Step>, t: int)
    requires cfg.Valid() && cfg.cap
    ensures BudgetAt(cfg, steps, t) >= 0
  {
    LatestIsNatural(steps[..StartOf(steps, t)]);
  }

  lemma {:induction false} LatestIsNatural(steps: seq<Step>)
    ensures Latest(steps).Some? ==> Latest(steps).value.budget >= 0
  {
    if steps != [] { LatestIsNatural(steps[..|steps| - 1]); }
  }

  // ---- budget exactness ----

  lemma {:induction false} NothingCompetesYet(cfg: Config, steps: seq<Step>, t: int)
    requires forall i | 0 <= i < |steps| && Timed(steps[i]) :: steps[i].t != t
    ensures Competing(cfg, steps, t) == 0
  {
    if steps != [] { NothingCompetesYet(cfg, steps[..|steps| - 1], t); }
  }

  function Min(a: int, b: int): int { if a < b then a else b }

  /** How many of n competing decisions a budget of b spares. */
  function Share(n: nat, b: int): nat { if b < 0 then 0 else Min(n, b) }

  /** The window counts what was spared at its logical time; a later time with competing decisions but
      without a window has a negative budget. */
  ghost predicate WindowOk(cfg: Config, steps: seq<Step>, w: Window) {
    && w.used == (if Competing(cfg, steps, w.start) == 0 then 0
                  else Share(Competing(cfg, steps, w.start), BudgetAt(cfg, steps, w.start)))
    && (Current(steps).Some? && w.start != Current(steps).value ==>
          Competing(cfg, steps, Current(steps).value) == 0 || BudgetAt(cfg, steps, Current(steps).value) < 0)
    && (Competing(cfg, steps, w.start) > 0 ==> StartOf(steps, w.start) < |steps|)
  }

  lemma OtherKeepsWindow(cfg: Config, steps: seq<Step>, e: Step, w: Window)
    requires Paced(cfg, steps) && Follows(cfg, steps, e) && WindowOk(cfg, steps, w) && !e.Decide?
    ensures WindowOk(cfg, steps + [e], w)
  {
    var more := steps + [e];
    assert more[..|steps|] == steps;
    if Competing(cfg, steps, w.start) > 0 { BudgetIsStable(cfg, more, |steps|, w.start); }
    CurrentIsLatest(cfg, steps);
    if e.Begin? || e.Violate? {
      FreshTime(cfg, steps, e);
      if Current(steps) != Some(e.t) { NotStarted(cfg, steps, e.t); }
    }
    if Current(steps).Some? { BudgetIsStable(cfg, more, |steps|, Current(steps).value); }
  }

  lemma {:induction false} DecideAfterStart(cfg: Config, steps: seq<Step>, i: nat)
    requires Paced(cfg, steps) && i < |steps| && Timed(steps[i])
    ensures StartOf(steps, steps[i].t) < |steps|
  {
    if i < |steps| - 1 { DecideAfterStart(cfg, steps[..|steps| - 1], i); }
  }

  lemma DecideAtCurrent(cfg: Config, steps: seq<Step>, e: Step)
    requires Paced(cfg, steps) && Follows(cfg, steps, e) && e.Decide?
    ensures Current(steps) == Some(e.t) && StartOf(steps, e.t) < |steps|
  {
    CurrentIsLatest(cfg, steps);
    var i :| 0 <= i < |steps| && StartsAt(steps[i], e.t);
    assert Timed(steps[i]);
    assert Timed(steps[StartOf(steps, Current(steps).value)]);
  }

  /** The budget the scheduler reads is the budget of the logical time. */
  lemma BudgetRead(cfg: Config, steps: seq<Step>, e: Step)
    requires cfg.Valid() && Paced(cfg, steps) && Follows(cfg, steps, e) && e.Decide?
    ensures BudgetInForce(cfg, Run(cfg, steps).control) == BudgetAt(cfg, steps, e.t)
  {
    DecideAtCurrent(cfg, steps, e);
    ControlHolds(cfg, steps);
    BudgetOfCurrent(cfg, steps);
  }

  lemma {:induction false} PressureIs(cfg: Config, steps: seq<Step>)
    ensures Run(cfg, steps).pressure == Pressed(cfg, steps)
  {
    if steps != [] { PressureIs(cfg, steps[..|steps| - 1]); }
  }

  /** The decision is the rule. */
  lemma DecideExactly(cfg: Config, steps: seq<Step>, e: Step)
    requires cfg.Valid() && Paced(cfg, steps) && Follows(cfg, steps, e) && e.Decide?
    requires WindowOk(cfg, steps, Run(cfg, steps).window)
    ensures Skips(cfg, Run(cfg, steps), e) <==> Due(cfg, steps, e)
    ensures Budgeted(cfg, Run(cfg, steps), e) <==> Competes(cfg, steps, e)
  {
    DecideAtCurrent(cfg, steps, e);
    BudgetRead(cfg, steps, e);
    PressureIs(cfg, steps);
  }

  lemma SparedKeepsWindow(cfg: Config, steps: seq<Step>, e: Step, w: Window)
    requires Paced(cfg, steps) && Follows(cfg, steps, e) && e.Decide? && !Competes(cfg, steps, e) && WindowOk(cfg, steps, w)
    ensures WindowOk(cfg, steps + [e], w)
  {
    var more := steps + [e];
    assert more[..|steps|] == steps;
    DecideAtCurrent(cfg, steps, e);
    BudgetIsStable(cfg, more, |steps|, e.t);
    if Competing(cfg, steps, w.start) > 0 { BudgetIsStable(cfg, more, |steps|, w.start); }
  }

  lemma CompetingKeepsWindow(cfg: Config, steps: seq<Step>, e: Step, w: Window)
    requires Paced(cfg, steps) && Follows(cfg, steps, e) && Competes(cfg, steps, e) && WindowOk(cfg, steps, w)
    ensures var b := BudgetAt(cfg, steps, e.t);
      WindowOk(cfg, steps + [e], if b < 0 then w else Window(e.t, Share(Competing(cfg, steps, e.t) + 1, b)))
  {
    var more := steps + [e];
    assert more[..|steps|] == steps;
    DecideAtCurrent(cfg, steps, e);
    BudgetIsStable(cfg, more, |steps|, e.t);
    if Competing(cfg, steps, w.start) > 0 { BudgetIsStable(cfg, more, |steps|, w.start); }
  }

  lemma DecideKeepsWindow(cfg: Config, steps: seq<Step>, e: Step)
    requires cfg.Valid() && Paced(cfg, steps) && Follows(cfg, steps, e) && e.Decide?
    requires WindowOk(cfg, steps, Run(cfg, steps).window)
    ensures WindowOk(cfg, steps + [e], Next(cfg, Run(cfg, steps), e).window)
  {
    var w := Run(cfg, steps).window;
    DecideAtCurrent(cfg, steps, e);
    DecideExactly(cfg, steps, e);
    BudgetRead(cfg, steps, e);
    if Competes(cfg, steps, e) {
      CompetingKeepsWindow(cfg, steps, e, w);
    } else {
      SparedKeepsWindow(cfg, steps, e, w);
    }
  }

  lemma {:induction false} WindowHolds(cfg: Config, steps: seq<Step>)
    requires cfg.Valid() && Paced(cfg, steps)
    ensures WindowOk(cfg, steps, Run(cfg, steps).window)
  {
    if steps != [] {
      var before, e := steps[..|steps| - 1], steps[|steps| - 1];
      WindowHolds(cfg, before);
      assert steps == before + [e];
      if e.Decide? {
        DecideKeepsWindow(cfg, before, e);
      } else {
        OtherKeepsWindow(cfg, before, e, Run(cfg, before).window);
      }
    }
  }

  /** In every configuration: a decision sheds exactly when the rule says so, whenever in the run the
      budget is looked up. */
  lemma ShedIff(cfg: Config, steps: seq<Step>, i: nat)
    requires cfg.Valid() && Paced(cfg, steps) && i < |steps| && steps[i].Decide?
    ensures var e, r := steps[i], steps[i].r;
      Skips(cfg, Run(cfg, steps[..i]), e) <==>
        && cfg.degrade && cfg.skipAction && r in cfg.policies && cfg.policies[r].low && cfg.policies[r].degradable
        && (|| (cfg.lagShedding && e.physical - e.t > cfg.lagNs)
            || ((cfg.cap || Pressed(cfg, steps[..i])) && Competing(cfg, steps[..i], e.t) >= BudgetAt(cfg, steps, e.t)))
  {
    PacedPrefix(cfg, steps, i);
    WindowHolds(cfg, steps[..i]);
    DecideExactly(cfg, steps[..i], steps[i]);
    DecideAtCurrent(cfg, steps[..i], steps[i]);
    BudgetIsStable(cfg, steps, i, steps[i].t);
  }

  /** Of the decisions that compete at a logical time exactly as many are spared as its budget allows. */
  lemma {:induction false} GrantedIsExact(cfg: Config, steps: seq<Step>, t: int)
    requires cfg.Valid() && Paced(cfg, steps)
    ensures Granted(cfg, steps, t) == Share(Competing(cfg, steps, t), BudgetAt(cfg, steps, t))
  {
    if steps != [] {
      var before, e := steps[..|steps| - 1], steps[|steps| - 1];
      GrantedIsExact(cfg, before, t);
      if StartOf(before, t) < |before| {
        assert steps[..|before|] == before;
        BudgetIsStable(cfg, steps, |before|, t);
      } else {
        NotStarted(cfg, before, t);
        if e.Decide? { DecideAtCurrent(cfg, before, e); }
      }
    }
  }

  lemma NotStarted(cfg: Config, steps: seq<Step>, t: int)
    requires Paced(cfg, steps) && StartOf(steps, t) == |steps|
    ensures Competing(cfg, steps, t) == 0
  {
    forall i | 0 <= i < |steps| && Timed(steps[i]) ensures steps[i].t != t {
      if steps[i].t == t { DecideAfterStart(cfg, steps, i); }
    }
    NothingCompetesYet(cfg, steps, t);
  }

  // ---- the cap alone ----

  predicate CapOnly(cfg: Config) { cfg.Valid() && cfg.cap && !cfg.lagShedding }

  lemma {:induction false} AllCompete(cfg: Config, steps: seq<Step>, t: int)
    requires CapOnly(cfg) && Paced(cfg, steps)
    ensures Competing(cfg, steps, t) == Dispatches(cfg, steps, t) && Granted(cfg, steps, t) == Kept(cfg, steps, t)
  {
    if steps != [] {
      var before, e := steps[..|steps| - 1], steps[|steps| - 1];
      AllCompete(cfg, before, t);
      if e.Decide? {
        WindowHolds(cfg, before);
        DecideExactly(cfg, before, e);
      }
    }
  }

  /** Budget exactness: of the n sheddable dispatches of a logical time exactly min(n, b) are kept. */
  lemma BudgetIsExact(cfg: Config, steps: seq<Step>, t: int)
    requires CapOnly(cfg) && Paced(cfg, steps)
    ensures Kept(cfg, steps, t) == Min(Dispatches(cfg, steps, t), BudgetAt(cfg, steps, t))
  {
    GrantedIsExact(cfg, steps, t);
    AllCompete(cfg, steps, t);
    BudgetIsNatural(cfg, steps, t);
  }

  /** Which ones: a dispatch is kept exactly when fewer than b came before it at its logical time. */
  lemma FirstOnesAreKept(cfg: Config, steps: seq<Step>, i: nat)
    requires CapOnly(cfg) && Paced(cfg, steps) && i < |steps| && steps[i].Decide? && cfg.Sheddable(steps[i].r)
    ensures Skips(cfg, Run(cfg, steps[..i]), steps[i]) <==>
            Dispatches(cfg, steps[..i], steps[i].t) >= BudgetAt(cfg, steps, steps[i].t)
  {
    ShedIff(cfg, steps, i);
    PacedPrefix(cfg, steps, i);
    AllCompete(cfg, steps[..i], steps[i].t);
  }

  lemma {:induction false} PacedPrefix(cfg: Config, steps: seq<Step>, i: nat)
    requires Paced(cfg, steps) && i < |steps|
    ensures Paced(cfg, steps[..i]) && Follows(cfg, steps[..i], steps[i])
  {
    var before := steps[..|steps| - 1];
    if i < |before| {
      PacedPrefix(cfg, before, i);
      assert before[..i] == steps[..i];
    }
  }

  // ---- the record ----

  /** The outcome of each Decide and Violate step, in order, as the record shows it. */
  ghost function Shed(cfg: Config, steps: seq<Step>): seq<Key> {
    if steps == [] then []
    else
      var before, e := steps[..|steps| - 1], steps[|steps| - 1];
      if e.Decide? && Skips(cfg, Run(cfg, before), e) then Shed(cfg, before) + [cfg.KeyOf(e.t, e.m, e.r)] else Shed(cfg, before)
  }

  ghost function Violated(cfg: Config, steps: seq<Step>): seq<Key> {
    if steps == [] then []
    else
      var before, e := steps[..|steps| - 1], steps[|steps| - 1];
      if e.Violate? then Violated(cfg, before) + [cfg.KeyOf(e.t, e.m, e.r)] else Violated(cfg, before)
  }

  /** Applied command numbers increase, and stay below a pending one. */
  ghost predicate SeqsOk(c: Control, applied: seq<int>) {
    && (forall i, j | 0 <= i < j < |applied| :: applied[i] < applied[j])
    && (forall i | 0 <= i < |applied| :: applied[i] <= c.appliedSeq)
    && c.appliedSeq <= c.lastSeq
    && (c.pending.Some? ==> c.appliedSeq < c.pending.value.seqNo && c.pending.value.seqNo == c.lastSeq)
  }

  lemma BeginLinesAre(cfg: Config, c: Control, t: int, m: nat, now: int)
    ensures var lines := BeginLines(cfg, c, t, m, now);
      DKeys(lines) == [] && XKeys(lines) == [] &&
      Applied(lines) == if cfg.Tagged() && IsNewTime(c, t) && cfg.ctrl && c.pending.Some? then [c.pending.value.seqNo] else []
  {
    var g, cmd := GuardLines(cfg, c.guardOn, c.lastLag, t, m), CommandLines(cfg, c.pending, c.pendingRecv, t, m, now);
    assert g != [] ==> g[..|g| - 1] == [];
    assert cmd != [] ==> cmd[..|cmd| - 1] == [];
    KeysConcat(g, cmd);
  }

  lemma BeginSeqs(cfg: Config, c: Control, t: int, applied: seq<int>, more: seq<int>)
    requires SeqsOk(c, applied)
    requires more == if cfg.Tagged() && IsNewTime(c, t) && cfg.ctrl && c.pending.Some? then [c.pending.value.seqNo] else []
    ensures SeqsOk(BeginControl(cfg, c, t), applied + more)
  {
  }

  lemma BeginRecords(cfg: Config, s: State, t: int, m: nat, now: int)
    requires SeqsOk(s.control, Applied(s.record))
    ensures var s' := BeginStep(cfg, s, t, m, now);
      DKeys(s'.record) == DKeys(s.record) && XKeys(s'.record) == XKeys(s.record) && SeqsOk(s'.control, Applied(s'.record))
  {
    var lines := BeginLines(cfg, s.control, t, m, now);
    BeginLinesAre(cfg, s.control, t, m, now);
    KeysConcat(s.record, lines);
    BeginSeqs(cfg, s.control, t, Applied(s.record), Applied(lines));
  }

  ghost predicate Faithful(s: State, shed: seq<Key>, violated: seq<Key>) {
    && DKeys(s.record) == shed && XKeys(s.record) == violated
    && s.shed == |shed| && s.violations == |violated|
    && SeqsOk(s.control, Applied(s.record))
  }

  /** One more line that applies no command. */
  lemma LineRecords(s: State, r: State, l: Line)
    requires Faithful(s, DKeys(s.record), XKeys(s.record)) && !l.M? && r.record == s.record + [l]
    requires SeqsOk(r.control, Applied(s.record))
    requires r.shed == s.shed + (if l.D? then 1 else 0) && r.violations == s.violations + (if l.X? then 1 else 0)
    ensures Faithful(r, if l.D? then DKeys(s.record) + [l.key] else DKeys(s.record),
                        if l.X? then XKeys(s.record) + [l.key] else XKeys(s.record))
  {
    KeysAppend(s.record, l);
  }

  lemma ViolateRecords(cfg: Config, s: State, e: Step)
    requires e.Violate? && Faithful(s, DKeys(s.record), XKeys(s.record))
    ensures Faithful(ViolateStep(cfg, s, e), DKeys(s.record), XKeys(s.record) + [cfg.KeyOf(e.t, e.m, e.r)])
  {
    BeginRecords(cfg, s, e.t, e.m, e.now);
    LineRecords(BeginStep(cfg, s, e.t, e.m, e.now), ViolateStep(cfg, s, e), X(cfg.KeyOf(e.t, e.m, e.r)));
  }

  lemma AcceptRecords(s: State, e: Step)
    requires e.Accept? && Faithful(s, DKeys(s.record), XKeys(s.record))
    ensures Faithful(AcceptStep(s, e), DKeys(s.record), XKeys(s.record))
  {
    LineRecords(s, AcceptStep(s, e), if Acceptable(s.control.lastSeq, e) then C(e.seqNo, e.budget, e.recv) else R(e.recv));
  }

  lemma DecideRecords(cfg: Config, s: State, e: Step)
    requires e.Decide? && Faithful(s, DKeys(s.record), XKeys(s.record))
    ensures Faithful(DecideStep(cfg, s, e),
              if Skips(cfg, s, e) then DKeys(s.record) + [cfg.KeyOf(e.t, e.m, e.r)] else DKeys(s.record), XKeys(s.record))
  {
    if Skips(cfg, s, e) { LineRecords(s, DecideStep(cfg, s, e), D(cfg.KeyOf(e.t, e.m, e.r))); }
  }

  lemma StepRecords(cfg: Config, s: State, e: Step)
    requires Faithful(s, DKeys(s.record), XKeys(s.record))
    ensures Faithful(Next(cfg, s, e),
              if e.Decide? && Skips(cfg, s, e) then DKeys(s.record) + [cfg.KeyOf(e.t, e.m, e.r)] else DKeys(s.record),
              if e.Violate? then XKeys(s.record) + [cfg.KeyOf(e.t, e.m, e.r)] else XKeys(s.record))
  {
    match e
    case Accept(_, _, _, _) => AcceptRecords(s, e);
    case Sample(_, _) =>
    case Begin(t, m, now) => BeginRecords(cfg, s, t, m, now);
    case Decide(_, _, _, _) => DecideRecords(cfg, s, e);
    case Violate(_, _, _, _) => ViolateRecords(cfg, s, e);
  }

  /** The D lines are exactly the skips and the X lines exactly the violations, in order, and the
      numbers of the applied commands strictly increase. */
  lemma {:induction false} RecordIsFaithful(cfg: Config, steps: seq<Step>)
    ensures Faithful(Run(cfg, steps), Shed(cfg, steps), Violated(cfg, steps))
  {
    if steps != [] {
      var before, e := steps[..|steps| - 1], steps[|steps| - 1];
      RecordIsFaithful(cfg, before);
      StepRecords(cfg, Run(cfg, before), e);
    }
  }

  /** High-criticality, non-degradable and unlisted reactions are never in the D lines of any run. */
  lemma OnlySheddableAreShed(cfg: Config, steps: seq<Step>, k: Key)
    requires k in DKeys(Run(cfg, steps).record)
    ensures cfg.Sheddable(k.reaction)
  {
    RecordIsFaithful(cfg, steps);
    ShedAreSheddable(cfg, steps);
  }

  lemma {:induction false} ShedAreSheddable(cfg: Config, steps: seq<Step>)
    ensures forall k | k in Shed(cfg, steps) :: cfg.Sheddable(k.reaction)
  {
    if steps != [] { ShedAreSheddable(cfg, steps[..|steps| - 1]); }
  }
}
