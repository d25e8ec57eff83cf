/** From a live run to its record on disk to its replay. */
module MsTheorem {
  import opened MsTypes
  import Live = MsDecisions
  import opened MsReplay
  import opened MsReplayTheorem
  import opened MsRecord
  import opened MsRecordTheorem

  /** The dispatches of a live run with their outcomes. */
  ghost function History(cfg: Live.Config, steps: seq<Live.Step>): seq<Dispatch> {
    if steps == [] then []
    else
      var before, e := steps[..|steps| - 1], steps[|steps| - 1];
      History(cfg, before) + OutcomeOf(cfg, Live.Run(cfg, before), e)
  }

  ghost function OutcomeOf(cfg: Live.Config, s: Live.State, e: Live.Step): seq<Dispatch> {
    match e
    case Decide(t, m, r, _) => [Dispatch(cfg.KeyOf(t, m, r), Decide(false, Live.Skips(cfg, s, e)))]
    case Violate(t, m, r, _) => [Dispatch(cfg.KeyOf(t, m, r), Decide(true, false))]
    case _ => []
  }

  lemma KeysWithAppend(h: seq<Dispatch>, a: Dispatch, o: Outcome)
    ensures KeysWith(h + [a], o) == KeysWith(h, o) + if a.outcome == o then [a.key] else []
  {
    assert (h + [a])[..|h|] == h;
  }

  /** The history's sheds and violations are those the decision model reports. */
  lemma {:induction false} HistoryIs(cfg: Live.Config, steps: seq<Live.Step>)
    ensures KeysWith(History(cfg, steps), Skipped) == Live.Shed(cfg, steps)
    ensures KeysWith(History(cfg, steps), Violated) == Live.Violated(cfg, steps)
  {
    if steps != [] {
      var before, e := steps[..|steps| - 1], steps[|steps| - 1];
      HistoryIs(cfg, before);
      var now := OutcomeOf(cfg, Live.Run(cfg, before), e);
      if now == [] {
        assert History(cfg, steps) == History(cfg, before);
      } else {
        KeysWithAppend(History(cfg, before), now[0], Skipped);
        KeysWithAppend(History(cfg, before), now[0], Violated);
        assert History(cfg, steps) == History(cfg, before) + [now[0]];
      }
    }
  }

  lemma {:induction false} NoEndLine(cfg: Live.Config, steps: seq<Live.Step>)
    ensures forall l | l in Live.Run(cfg, steps).record :: !l.E?
  {
    if steps != [] { NoEndLine(cfg, steps[..|steps| - 1]); }
  }

  /** The lines fit their machine types. */
  ghost predicate Fits(s: Live.State) {
    && (forall l | l in s.record :: Writable(l))
    && Writable(E(s.shed, s.violations, if s.control.pending.Some? then s.control.pending.value.seqNo else -1))
  }

  /** A run of the decision model that is a complete run of a deterministic program, recorded, loaded
      and replayed: the loader accepts, and every replay of the program has the same outcomes. */
  lemma RecordedRunReplays(cfg: Live.Config, steps: seq<Live.Step>, p: Program,
                           live: seq<seq<Dispatch>>, replay: seq<seq<Dispatch>>)
    requires Concat(live) == History(cfg, steps) && CompleteRunOf(p, live) && LiveRun(p, Concat(live))
    requires Fits(Live.Run(cfg, steps))
    ensures var sets := Load(Render(Live.Completed(Live.Run(cfg, steps))));
      && sets.Some?
      && (CompleteRunOf(p, replay) && ReplayRun(p, sets.value.0, sets.value.1, Concat(replay)) ==>
            && Outcomes(Concat(replay)) == Outcomes(Concat(live))
            && AllMet(EvaluateAll(Fresh(sets.value.0), Evaluated(Concat(replay))))
            && AllMet(MarkAll(Fresh(sets.value.1), KeysWith(Concat(replay), Violated))))
  {
    var sets := Load(Render(Live.Completed(Live.Run(cfg, steps))));
    LoadsItsRun(cfg, steps, p, live);
    if CompleteRunOf(p, replay) && ReplayRun(p, sets.value.0, sets.value.1, Concat(replay)) {
      ReplayReproduces(p, live, replay, sets.value.0, sets.value.1);
    }
  }

  /** The loader accepts the record of such a run and returns its sheds and violations. */
  lemma LoadsItsRun(cfg: Live.Config, steps: seq<Live.Step>, p: Program, live: seq<seq<Dispatch>>)
    requires Concat(live) == History(cfg, steps) && RunOf(p, live) && Fits(Live.Run(cfg, steps))
    ensures var sets := Load(Render(Live.Completed(Live.Run(cfg, steps))));
      sets.Some? && RecordOf(Concat(live), sets.value.0, sets.value.1)
  {
    var s := Live.Run(cfg, steps);
    Live.RecordIsFaithful(cfg, steps);
    HistoryIs(cfg, steps);
    NoEndLine(cfg, steps);
    var pending := if s.control.pending.Some? then s.control.pending.value.seqNo else -1;
    assert Live.Completed(s) == s.record + [EndOf(s.record, pending)];
    RoundTrip(s.record, pending);
    OutcomesAre(p, live);
    KeysWithAre(Concat(live), Skipped);
    KeysWithAre(Concat(live), Violated);
  }
}
