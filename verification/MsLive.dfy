/** The master scheduler's mutable state and entry points, each proved against MsDecisions. */
module MsLive {
  import opened Wrappers
  import opened MsTypes
  import opened MsDecisions

  class MasterScheduler {
    const cfg: Config
    var budget: int
    var pending: Option<Command>
    var pendingRecv: int
    var lastSeq: int
    var appliedSeq: int
    var guardOn: bool
    var lastLag: int
    var seenLogical: bool
    var lastLogical: int
    var windowStart: int
    var windowUsed: nat
    var pressure: bool
    var kept: int
    var shed: int
    var violations: int
    var decisionLog: seq<Line>
    var sheds: int              // D lines written
    var misses: int             // X lines written
    var closed: bool

    ghost predicate Valid()
      reads this
    {
      sheds == shed && misses == violations
    }

    ghost function Abs(): State
      reads this
    {
      State(Control(budget, pending, pendingRecv, lastSeq, appliedSeq, guardOn, lastLag, seenLogical, lastLogical),
            Window(windowStart, windowUsed), pressure, kept, shed, violations, decisionLog)
    }

    constructor (c: Config)
      ensures cfg == c && Valid() && !closed && Abs() == Initial(c)
    {
      cfg := c;
      budget, pending, pendingRecv, lastSeq, appliedSeq := c.initialBudget, None, 0, -1, -1;
      guardOn, lastLag, seenLogical, lastLogical := false, 0, false, 0;
      windowStart, windowUsed, pressure := 0, 0, false;
      kept, shed, violations, decisionLog, sheds, misses, closed := 0, 0, 0, [], 0, 0, false;
    }

    /** The guard's part of _ms_tag_begin_locked. */
    method MoveGuard(t: int, m: nat)
      requires Valid()
      modifies this`guardOn, this`decisionLog
      ensures decisionLog == old(decisionLog) + GuardLines(cfg, old(guardOn), lastLag, t, m)
      ensures guardOn == if cfg.guard then GuardNext(cfg, old(guardOn), lastLag) else old(guardOn)
    {
      if cfg.guard {
        var on := if guardOn then lastLag >= cfg.guardOffNs else lastLag >= cfg.guardOnNs;
        if on != guardOn { decisionLog := decisionLog + [G(t - cfg.startTime, m, on, lastLag)]; }
        guardOn := on;
      }
    }

    /** The command's part of it. */
    method ApplyPending(t: int, m: nat, now: int)
      requires Valid()
      modifies this`pending, this`budget, this`appliedSeq, this`decisionLog
      ensures decisionLog == old(decisionLog) + CommandLines(cfg, old(pending), pendingRecv, t, m, now)
      ensures if cfg.ctrl && old(pending).Some?
              then pending == None && budget == old(pending).value.budget && appliedSeq == old(pending).value.seqNo
              else pending == old(pending) && budget == old(budget) && appliedSeq == old(appliedSeq)
    {
      if cfg.ctrl && pending.Some? {
        var command := pending.value;
        pending := None;
        budget := command.budget;
        appliedSeq := command.seqNo;
        decisionLog := decisionLog + [M(command.seqNo, command.budget, t - cfg.startTime, m, pendingRecv, now)];
      }
    }

    /** _ms_tag_begin_locked past its test. */
    method EnterTime(t: int, m: nat, now: int)
      requires Valid() && cfg.Tagged() && IsNewTime(Abs().control, t)
      modifies this`seenLogical, this`lastLogical, this`guardOn, this`pending, this`budget, this`appliedSeq, this`decisionLog
      ensures decisionLog == old(decisionLog) + BeginLines(cfg, old(Abs()).control, t, m, now)
      ensures Abs().control == BeginControl(cfg, old(Abs()).control, t)
    {
      seenLogical := true;
      lastLogical := t;
      MoveGuard(t, m);
      ApplyPending(t, m, now);
    }

    /** _ms_tag_begin_locked under its callers' guard. */
    method TagBegin(t: int, m: nat, now: int)
      requires Valid() && !closed
      modifies this
      ensures Valid() && !closed && Abs() == BeginStep(cfg, old(Abs()), t, m, now)
    {
      if (cfg.ctrl || cfg.guard || cfg.summary) && !(seenLogical && lastLogical == t) { EnterTime(t, m, now); }
    }

    /** _ms_ctrl_accept. */
    method Accept(parsed: bool, seqNo: int, b: int, recv: int) returns (valid: bool)
      requires Valid() && !closed
      modifies this
      ensures Valid() && !closed && Abs() == AcceptStep(old(Abs()), Step.Accept(parsed, seqNo, b, recv))
      ensures valid <==> parsed && b >= 0 && seqNo > old(lastSeq)
    {
      valid := parsed && seqNo > lastSeq && b >= 0;
      if valid {
        lastSeq := seqNo;
        pending := Some(Command(seqNo, b));
        pendingRecv := recv;
        decisionLog := decisionLog + [C(seqNo, b, recv)];
      } else {
        decisionLog := decisionLog + [R(recv)];
      }
    }

    /** ms_on_metrics. */
    method OnMetrics(lag: int, readyLen: int)
      requires Valid()
      modifies this`lastLag, this`pressure
      ensures Valid() && Abs() == SampleStep(cfg, old(Abs()), lag, readyLen)
    {
      lastLag := lag;
      pressure := false;
      if cfg.degrade {
        if cfg.pressureLag >= 0 && lag >= cfg.pressureLag { pressure := true; }
        if cfg.pressureReady >= 0 && readyLen >= 0 && readyLen >= cfg.pressureReady { pressure := true; }
      }
    }

    method WriteShed(k: Key)
      requires Valid()
      modifies this`shed, this`sheds, this`decisionLog
      ensures Valid() && shed == old(shed) + 1 && decisionLog == old(decisionLog) + [D(k)]
    {
      shed := shed + 1;
      decisionLog := decisionLog + [D(k)];
      sheds := sheds + 1;
    }

    /** One reaction against the budget of its logical time. */
    method Spend(t: int) returns (allowed: bool)
      requires Valid()
      modifies this`windowStart, this`windowUsed, this`kept
      ensures Valid()
      ensures var b, w := BudgetInForce(cfg, old(Abs()).control), old(Abs()).window;
        && allowed == (b >= 0 && Enter(w, t).used < b)
        && kept == old(kept) + (if allowed then 1 else 0)
        && Window(windowStart, windowUsed) ==
           if b < 0 then w else if allowed then Window(t, Enter(w, t).used + 1) else Enter(w, t)
    {
      allowed := false;
      var b := budget;
      if guardOn && cfg.guardBudget < b { b := cfg.guardBudget; }
      if b >= 0 {
        if windowStart != t {
          windowStart := t;
          windowUsed := 0;
        }
        if windowUsed < b {
          windowUsed := windowUsed + 1;
          allowed := true;
          kept := kept + 1;
        }
      }
    }

    /** The second critical section of ms_should_skip_reaction. */
    method DecideReaction(t: int, m: nat, r: nat, physical: int) returns (skip: bool)
      requires Valid() && !closed
      modifies this
      ensures Valid() && !closed && Abs() == DecideStep(cfg, old(Abs()), Decide(t, m, r, physical))
      ensures skip == Skips(cfg, old(Abs()), Decide(t, m, r, physical))
    {
      if !cfg.degrade || !cfg.skipAction { return false; }
      if cfg.lagShedding && r in cfg.policies && cfg.policies[r].low && cfg.policies[r].degradable && physical - t > cfg.lagNs {
        WriteShed(cfg.KeyOf(t, m, r));
        return true;
      }
      if !(pressure || cfg.cap) { return false; }
      if r in cfg.policies && cfg.policies[r].low && cfg.policies[r].degradable {
        var allowed := Spend(t);
        if !allowed {
          WriteShed(cfg.KeyOf(t, m, r));
          return true;
        }
      }
      return false;
    }

    /** ms_should_skip_reaction, run alone. */
    method ShouldSkip(t: int, m: nat, r: nat, now: int, physical: int) returns (skip: bool)
      requires Valid() && !closed
      modifies this
      ensures Valid() && !closed
      ensures Abs() == Next(cfg, Next(cfg, old(Abs()), Begin(t, m, now)), Decide(t, m, r, physical))
      ensures skip == Skips(cfg, Next(cfg, old(Abs()), Begin(t, m, now)), Decide(t, m, r, physical))
    {
      TagBegin(t, m, now);
      skip := DecideReaction(t, m, r, physical);
    }

    /** ms_on_reaction_violation. */
    method OnViolation(t: int, m: nat, r: nat, now: int)
      requires Valid() && !closed
      modifies this
      ensures Valid() && !closed && Abs() == ViolateStep(cfg, old(Abs()), Violate(t, m, r, now))
    {
      TagBegin(t, m, now);
      violations := violations + 1;
      decisionLog := decisionLog + [X(cfg.KeyOf(t, m, r))];
      misses := misses + 1;
    }

    /** The end of ms_shutdown; a second call changes nothing. */
    method Shutdown()
      requires Valid()
      modifies this`closed, this`decisionLog
      ensures Valid() && closed
      ensures decisionLog == if old(closed) then old(decisionLog) else Completed(old(Abs()))
    {
      if closed { return; }
      closed := true;
      decisionLog := decisionLog + [E(sheds, misses, if pending.Some? then pending.value.seqNo else -1)];
    }
  }
}
