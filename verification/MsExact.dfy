/** The whole record of a live run, line by line, from its inputs alone. */
module MsExact {
  import opened Wrappers
  import opened MsTypes
  import opened MsDecisions

  // ---- reference definitions ----

  function NumberOf(c: Option<Command>): int { if c.Some? then c.value.seqNo else -1 }

  /** When the last accepted command was received. */
  function LatestRecv(steps: seq<Step>): int {
    if steps == [] then 0
    else
      var before, e := steps[..|steps| - 1], steps[|steps| - 1];
      if Accepts(before, e) then e.recv else LatestRecv(before)
  }

  /** A command is accepted if it parsed, its budget is not negative and its number beats all before. */
  predicate Accepts(steps: seq<Step>, e: Step) {
    e.Accept? && e.parsed && e.budget >= 0 && e.seqNo > NumberOf(Latest(steps))
  }

  /** The lines at the first sight of logical time t: the guard if its hysteresis has switched, then
      the command that was accepted since the one in force. */
  ghost function Opening(cfg: Config, steps: seq<Step>, t: int, m: nat, now: int): seq<Line> {
    if StartOf(steps, t) < |steps| then []
    else
      var lag, latest := LatestLag(steps), Latest(steps);
      var was, holds := GuardHolds(cfg, StartLags(steps)), GuardHolds(cfg, StartLags(steps) + [lag]);
      (if cfg.guard && was != holds then [G(t - cfg.startTime, m, holds, lag)] else [])
      + if latest.Some? && latest != InForce(steps)
        then [M(latest.value.seqNo, latest.value.budget, t - cfg.startTime, m, LatestRecv(steps), now)] else []
  }

  /** The lines of one step after a history. */
  ghost function LinesOf(cfg: Config, steps: seq<Step>, e: Step): seq<Line> {
    match e
    case Accept(_, seqNo, budget, recv) => if Accepts(steps, e) then [C(seqNo, budget, recv)] else [R(recv)]
    case Sample(_, _) => []
    case Begin(t, m, now) => Opening(cfg, steps, t, m, now)
    case Decide(t, m, r, _) => if Due(cfg, steps, e) then [D(Key(0, t - cfg.startTime, m, r))] else []
    case Violate(t, m, r, now) => Opening(cfg, steps, t, m, now) + [X(Key(0, t - cfg.startTime, m, r))]
  }

  ghost function Expected(cfg: Config, steps: seq<Step>): seq<Line> {
    if steps == [] then []
    else Expected(cfg, steps[..|steps| - 1]) + LinesOf(cfg, steps[..|steps| - 1], steps[|steps| - 1])
  }

  /** The decisions spared by the budget, over all logical times. */
  ghost function AllGranted(cfg: Config, steps: seq<Step>): nat {
    if steps == [] then 0
    else
      var before, e := steps[..|steps| - 1], steps[|steps| - 1];
      AllGranted(cfg, before) + if Competes(cfg, before, e) && !Due(cfg, before, e) then 1 else 0
  }

  // ---- the pending command ----

  /** A pending command is newer than the one in force. */
  ghost predicate PendingOk(steps: seq<Step>, c: Control) {
    && c.appliedSeq == NumberOf(InForce(steps))
    && c.appliedSeq <= c.lastSeq
    && (c.pending.Some? ==> c.pending.value.seqNo > c.appliedSeq && c.pendingRecv == LatestRecv(steps))
  }

  lemma BeginKeepsPending(cfg: Config, steps: seq<Step>, e: Step, c: Control)
    requires cfg.Valid() && Paced(cfg, steps) && Follows(cfg, steps, e) && (e.Begin? || e.Violate?)
    requires ControlOk(cfg, steps, c) && PendingOk(steps, c)
    ensures PendingOk(steps + [e], BeginControl(cfg, c, e.t))
  {
    assert (steps + [e])[..|steps|] == steps;
    FreshTime(cfg, steps, e);
  }

  lemma OtherKeepsPending(cfg: Config, steps: seq<Step>, e: Step, s: State)
    requires (e.Accept? || e.Sample? || e.Decide?) && ControlOk(cfg, steps, s.control) && PendingOk(steps, s.control)
    ensures PendingOk(steps + [e], Next(cfg, s, e).control)
  {
    assert (steps + [e])[..|steps|] == steps;
  }

  lemma {:induction false} PendingHolds(cfg: Config, steps: seq<Step>)
    requires cfg.Valid() && Paced(cfg, steps)
    ensures PendingOk(steps, Run(cfg, steps).control)
  {
    if steps != [] {
      var before, e := steps[..|steps| - 1], steps[|steps| - 1];
      PendingHolds(cfg, before);
      ControlHolds(cfg, before);
      assert steps == before + [e];
      if e.Begin? || e.Violate? {
        BeginKeepsPending(cfg, before, e, Run(cfg, before).control);
      } else {
        OtherKeepsPending(cfg, before, e, Run(cfg, before));
      }
    }
  }

  /** A command is pending exactly while the last one accepted is not in force. */
  lemma PendingIff(cfg: Config, steps: seq<Step>)
    requires cfg.Valid() && Paced(cfg, steps)
    ensures var c := Run(cfg, steps).control;
      && (c.pending.Some? <==> Latest(steps) != InForce(steps))
      && (c.pending.Some? ==> cfg.ctrl && c.pending == Latest(steps) && c.pendingRecv == LatestRecv(steps))
  {
    PendingHolds(cfg, steps);
    ControlHolds(cfg, steps);
  }

  // ---- the record ----

  lemma OpeningIs(cfg: Config, steps: seq<Step>, e: Step)
    requires cfg.Valid() && Paced(cfg, steps) && Follows(cfg, steps, e) && (e.Begin? || e.Violate?)
    ensures BeginLines(cfg, Run(cfg, steps).control, e.t, e.m, e.now) == Opening(cfg, steps, e.t, e.m, e.now)
  {
    var c := Run(cfg, steps).control;
    ControlHolds(cfg, steps);
    PendingIff(cfg, steps);
    FreshTime(cfg, steps, e);
    if cfg.guard { GuardHoldsAppend(cfg, StartLags(steps), c.lastLag); }
  }

  /** What a step adds to the record and to the counter of kept reactions. */
  ghost predicate Writes(cfg: Config, steps: seq<Step>, e: Step, s: State, r: State) {
    && r.record == s.record + LinesOf(cfg, steps, e)
    && r.kept == s.kept + if Competes(cfg, steps, e) && !Due(cfg, steps, e) then 1 else 0
  }

  lemma OpeningWrites(cfg: Config, steps: seq<Step>, e: Step, s: State)
    requires cfg.Valid() && Paced(cfg, steps) && Follows(cfg, steps, e) && (e.Begin? || e.Violate?) && s == Run(cfg, steps)
    ensures Writes(cfg, steps, e, s, Next(cfg, s, e))
  {
    OpeningIs(cfg, steps, e);
    if e.Violate? {
      var opening, x := Opening(cfg, steps, e.t, e.m, e.now), [X(Key(0, e.t - cfg.startTime, e.m, e.r))];
      assert s.record + opening + x == s.record + (opening + x);
    }
  }

  lemma DecideWrites(cfg: Config, steps: seq<Step>, e: Step, s: State)
    requires cfg.Valid() && Paced(cfg, steps) && Follows(cfg, steps, e) && e.Decide? && s == Run(cfg, steps)
    ensures Writes(cfg, steps, e, s, Next(cfg, s, e))
  {
    WindowHolds(cfg, steps);
    DecideExactly(cfg, steps, e);
  }

  lemma AcceptWrites(cfg: Config, steps: seq<Step>, e: Step, s: State)
    requires cfg.Valid() && Paced(cfg, steps) && Follows(cfg, steps, e) && e.Accept? && s == Run(cfg, steps)
    ensures Writes(cfg, steps, e, s, Next(cfg, s, e))
  {
    ControlHolds(cfg, steps);
  }

  lemma StepWrites(cfg: Config, steps: seq<Step>, e: Step)
    requires cfg.Valid() && Paced(cfg, steps) && Follows(cfg, steps, e)
    ensures Writes(cfg, steps, e, Run(cfg, steps), Next(cfg, Run(cfg, steps), e))
  {
    var s := Run(cfg, steps);
    match e
    case Accept(_, _, _, _) => AcceptWrites(cfg, steps, e, s);
    case Sample(_, _) =>
    case Begin(_, _, _) => OpeningWrites(cfg, steps, e, s);
    case Decide(_, _, _, _) => DecideWrites(cfg, steps, e, s);
    case Violate(_, _, _, _) => OpeningWrites(cfg, steps, e, s);
  }

  /** For every valid configuration and every run: the record is, line by line, the one the inputs
      call for, and the counter of kept reactions is the number of decisions the budget spared. */
  lemma {:induction false} RecordIs(cfg: Config, steps: seq<Step>)
    requires cfg.Valid() && Paced(cfg, steps)
    ensures Run(cfg, steps).record == Expected(cfg, steps) && Run(cfg, steps).kept == AllGranted(cfg, steps)
  {
    if steps != [] {
      var before := steps[..|steps| - 1];
      RecordIs(cfg, before);
      StepWrites(cfg, before, steps[|steps| - 1]);
    }
  }

  /** The end line names the command accepted but never applied, if there is one. */
  lemma EndLineIs(cfg: Config, steps: seq<Step>)
    requires cfg.Valid() && Paced(cfg, steps)
    ensures Completed(Run(cfg, steps)) ==
            Expected(cfg, steps) + [E(|DKeys(Expected(cfg, steps))|, |XKeys(Expected(cfg, steps))|,
                                      if Latest(steps) != InForce(steps) then NumberOf(Latest(steps)) else -1)]
  {
    RecordIs(cfg, steps);
    RecordIsFaithful(cfg, steps);
    PendingIff(cfg, steps);
  }
}
