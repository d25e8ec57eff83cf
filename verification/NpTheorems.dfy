/** What holds in every run of the NP protocol, whatever the interleaving and the picks. */
module NpTheorems {
  import opened Tags
  import opened NpModel
  import opened NpInvariant
  import opened NpPreservation
  import opened NpSteps

  // ---- the initial states ----

  lemma BlankKeeps(p: Program, current: Tag, stop: Tag) returns (at: seq<Place>)
    requires p.Valid()
    ensures Inv(p, Blank(p, current, stop), at)
    ensures forall r | 0 <= r < |at| :: at[r] == Nowhere
  {
    at := seq(|p.level|, _ => Nowhere);
    NobodyCounts(p, Blank(p, current, stop).desk.pcs);
  }

  lemma {:induction false} NobodyCounts(p: Program, pcs: seq<Pc>)
    requires forall w | 0 <= w < |pcs| :: Weight(p, pcs[w]) == 0
    ensures Sum(p, pcs) == 0
  {
    if pcs != [] { NobodyCounts(p, pcs[1..]); }
  }

  /** No worker has taken a step yet. */
  ghost predicate Idle(s: State) {
    && s.v.next == 1 && s.v.executing == 0 && !s.desk.stopped && s.past == []
    && (forall w | 0 <= w < |s.desk.pcs| :: s.desk.pcs[w] == Top)
    && (forall l | 0 <= l < |s.v.indexes| :: s.v.indexes[l] >= 0)
    && (forall r: nat :: Started(r) !in s.log)
  }

  function WithFirst(s: State, v: Vectors, r: Reaction): State
    requires r < |s.queued|
  {
    s.(v := v, queued := s.queued[r := true], log := s.log + [Triggered(r)])
  }

  lemma FirstLog(p: Program, log: seq<Event>, at: seq<Place>, pcs: seq<Pc>, r: Reaction, place: Place)
    requires LogOk(p, log, at, pcs) && |pcs| > 0 && forall w | 0 <= w < |pcs| :: pcs[w] == Top
    requires p.Knows(r) && at[r] == Nowhere && place.InSlot? && forall x: nat :: Started(x) !in log
    ensures LogOk(p, log + [Triggered(r)], at[r := place], pcs)
    ensures forall x: nat :: Started(x) !in log + [Triggered(r)]
  {
    LogTrigger(p, log, at, pcs, 0, r, Top, 0);
    assert pcs[0 := Top] == pcs;
    LogQuiet(p, log + [Triggered(r)], at[r := Pending(0)], pcs, at[r := place], pcs);
  }

  lemma FirstHands(p: Program, pcs: seq<Pc>, queued: seq<bool>, at: seq<Place>, r: Reaction, place: Place)
    requires Hands(p, pcs, queued, at) && p.Knows(r) && place.InSlot? && at[r] == Nowhere
    ensures Hands(p, pcs, queued[r := true], at[r := place])
  {
  }

  lemma FirstLevels(p: Program, v: Vectors, d: Desk)
    requires v.next == 1 && v.executing == 0 && |v.indexes| > 0 && !d.stopped
    requires forall w | 0 <= w < |d.pcs| :: d.pcs[w] == Top
    requires forall l | 0 <= l < |v.indexes| :: v.indexes[l] >= 0
    ensures Levels(p, v, d)
  {
  }

  ghost function FirstPlace(p: Program, s: State, at: seq<Place>, r: Reaction): seq<Place>
    requires p.Knows(r) && r < |at| && p.level[r] < |s.v.indexes| && s.v.indexes[p.level[r]] >= 0
  {
    at[r := InSlot(p.level[r], s.v.indexes[p.level[r]])]
  }

  lemma FirstCustody(p: Program, s: State, r: Reaction, at: seq<Place>)
    requires p.Valid() && Custody(p, s, at) && Idle(s) && p.Knows(r) && at[r] == Nowhere
    ensures InsertReaction(p, s.v, r).Ok?
    ensures Custody(p, WithFirst(s, InsertReaction(p, s.v, r).value, r), FirstPlace(p, s, at, r))
    ensures Idle(WithFirst(s, InsertReaction(p, s.v, r).value, r))
  {
    RowsInsert(p, s.v, at, r);
    var s' := WithFirst(s, InsertReaction(p, s.v, r).value, r);
    FirstHands(p, s.desk.pcs, s.queued, at, r, InSlot(p.level[r], s.v.indexes[p.level[r]]));
    FirstLevels(p, s'.v, s'.desk);
  }

  lemma AddFirst(p: Program, s: State, r: Reaction, at: seq<Place>)
    requires p.Valid() && Inv(p, s, at) && Idle(s) && p.Knows(r) && at[r] == Nowhere
    ensures InsertReaction(p, s.v, r).Ok?
    ensures Inv(p, WithFirst(s, InsertReaction(p, s.v, r).value, r), FirstPlace(p, s, at, r))
    ensures Idle(WithFirst(s, InsertReaction(p, s.v, r).value, r))
  {
    FirstCustody(p, s, r, at);
    FirstLog(p, s.log, at, s.desk.pcs, r, InSlot(p.level[r], s.v.indexes[p.level[r]]));
  }

  /** lf_sched_init and any distinct reactions of the start tag. */
  lemma {:induction false} StartKeeps(p: Program, first: seq<Reaction>, current: Tag, stop: Tag) returns (at: seq<Place>)
    requires p.Valid() && StartOk(p, first)
    ensures Inv(p, Start(p, first, current, stop), at) && Idle(Start(p, first, current, stop))
    ensures forall r | 0 <= r < |at| && r !in first :: at[r] == Nowhere
  {
    if first == [] {
      at := BlankKeeps(p, current, stop);
    } else {
      var before, r := first[..|first| - 1], first[|first| - 1];
      var at0 := StartKeeps(p, before, current, stop);
      var s := Start(p, before, current, stop);
      assert r !in before;
      AddFirst(p, s, r, at0);
      at := FirstPlace(p, s, at0, r);
      forall x | 0 <= x < |at| && x !in first ensures at[x] == Nowhere { assert x !in before; }
    }
  }

  lemma InitKeeps(p: Program, s: State) returns (at: seq<Place>)
    requires p.Valid() && Init(p, s)
    ensures Inv(p, s, at)
  {
    var first: seq<Reaction> :| StartOk(p, first) && s == Start(p, first, s.clock.current, s.clock.stop);
    at := StartKeeps(p, first, s.clock.current, s.clock.stop);
  }

  lemma {:induction false} RunIsGood(p: Program, states: seq<State>, acts: seq<Act>, n: nat)
    requires p.Valid() && IsRun(p, states, acts) && n < |states|
    ensures Good(p, states[n])
  {
    if n == 0 {
      var at := InitKeeps(p, states[0]);
    } else {
      RunIsGood(p, states, acts, n - 1);
      StepKeeps(p, states[n - 1], acts[n - 1].w, acts[n - 1].c, states[n]);
    }
  }

  /** Every state of every run satisfies the invariant. */
  lemma RunKeeps(p: Program, states: seq<State>, acts: seq<Act>, n: nat) returns (at: seq<Place>)
    requires p.Valid() && IsRun(p, states, acts) && n < |states|
    ensures Inv(p, states[n], at)
  {
    RunIsGood(p, states, acts, n);
    at :| Inv(p, states[n], at);
  }

  // ---- what an orderly log says ----

  /** No event twice. */
  ghost predicate NoRepeat(log: seq<Event>) {
    forall i, j | 0 <= i < j < |log| :: log[i] != log[j]
  }

  /** No reaction starts before every lower-level reaction of the round, whenever triggered, is done. */
  ghost predicate LevelOrder(p: Program, log: seq<Event>) {
    forall i, j | 0 <= i < |log| && 0 <= j < |log| && log[i].Started? && log[j].Triggered? ::
      && p.Knows(log[i].r) && p.Knows(log[j].r)
      && (p.level[log[j].r] < p.level[log[i].r] ==> Finished(log[j].r) in log[..i])
  }

  /** A reaction starts after its trigger and finishes after its start. */
  ghost predicate Causal(log: seq<Event>) {
    && (forall i | 0 <= i < |log| && log[i].Started? :: Triggered(log[i].r) in log[..i])
    && (forall i | 0 <= i < |log| && log[i].Finished? :: Started(log[i].r) in log[..i])
  }

  lemma {:induction false} OrderlyMeans(p: Program, log: seq<Event>)
    requires Orderly(p, log)
    ensures NoRepeat(log) && LevelOrder(p, log) && Causal(log)
  {
    if log != [] {
      var init := log[..|log| - 1];
      OrderlyMeans(p, init);
      OrderlyLast(p, init, log[|log| - 1]);
      assert log == init + [log[|log| - 1]];
    }
  }

  lemma OrderlyLast(p: Program, init: seq<Event>, e: Event)
    requires NoRepeat(init) && LevelOrder(p, init) && Causal(init) && Legit(p, init, e)
    ensures NoRepeat(init + [e]) && LevelOrder(p, init + [e]) && Causal(init + [e])
  {
    var log := init + [e];
    assert forall i | 0 <= i <= |init| :: log[..i] == init[..i];
    assert init[..|init|] == init;
    forall i, j | 0 <= i < |log| && 0 <= j < |log| && log[i].Started? && log[j].Triggered?
      ensures p.Knows(log[i].r) && p.Knows(log[j].r)
      ensures p.level[log[j].r] < p.level[log[i].r] ==> Finished(log[j].r) in log[..i]
    {
      if i < |init| && j < |init| {
        assert init[i].Started? && init[j].Triggered?;
      } else if i == |init| {
        assert Triggered(log[j].r) in init;
      } else {
        assert Started(log[i].r) in init;
      }
    }
  }

  // ---- the theorems ----

  ghost function AllRounds(s: State): seq<Round> { s.past + [Round(s.clock.current, s.log)] }

  /** In every interleaving, under every pick: no array index leaves its vector and no status test
      fails; in every round no event repeats, nothing starts before its trigger, and no reaction
      starts before all lower-level reactions of that round are done. */
  lemma LevelsAreRespected(p: Program, states: seq<State>, acts: seq<Act>, n: nat, k: nat)
    requires p.Valid() && IsRun(p, states, acts) && n < |states| && k < |AllRounds(states[n])|
    ensures !states[n].faulted
    ensures var log := AllRounds(states[n])[k].log; NoRepeat(log) && LevelOrder(p, log) && Causal(log)
  {
    var at := RunKeeps(p, states, acts, n);
    var s := states[n];
    var log := AllRounds(s)[k].log;
    assert Orderly(p, log) by {
      if k < |s.past| { assert Complete(p, s.past[k].log); }
    }
    OrderlyMeans(p, log);
  }

  /** Every reaction triggered in a round that is over was started and finished in it, exactly once. */
  lemma EveryTriggerIsServed(p: Program, states: seq<State>, acts: seq<Act>, n: nat, k: nat, r: Reaction)
    requires p.Valid() && IsRun(p, states, acts) && n < |states| && k < |states[n].past|
    ensures var log := states[n].past[k].log;
      && NoRepeat(log)
      && (Triggered(r) in log <==> Started(r) in log)
      && (Triggered(r) in log <==> Finished(r) in log)
  {
    var at := RunKeeps(p, states, acts, n);
    var log := states[n].past[k].log;
    assert Complete(p, log);
    OrderlyMeans(p, log);
    if Finished(r) in log {
      var i :| 0 <= i < |log| && log[i] == Finished(r);
      assert Started(r) in log[..i];
    }
    if Started(r) in log {
      var i :| 0 <= i < |log| && log[i] == Started(r);
      assert Triggered(r) in log[..i];
    }
  }

  /** Tags never go back, and of the rounds at one tag only the first can hold any event, so no
      reaction starts twice at a tag. */
  lemma OncePerTag(p: Program, states: seq<State>, acts: seq<Act>, n: nat, i: nat, j: nat)
    requires p.Valid() && IsRun(p, states, acts) && n < |states| && i < j < |AllRounds(states[n])|
    ensures var rounds := AllRounds(states[n]);
      && AtMost(rounds[i].tag, rounds[j].tag)
      && (rounds[i].tag == rounds[j].tag ==> rounds[j].log == [])
  {
    var at := RunKeeps(p, states, acts, n);
  }

  /** The workers that went idle and have not been counted back. */
  ghost function Waiting(s: State): set<nat> { set w | 0 <= w < |s.desk.pcs| && s.desk.pcs[w].Wait? }

  ghost function Advancers(s: State): set<nat> { set w | 0 <= w < |s.desk.pcs| && Advancing(s.desk.pcs[w]) }

  /** Workers already counted back, or told to stop, whose credits are not released yet. */
  ghost function Owed(p: Program, pcs: seq<Pc>): int {
    if pcs == [] then 0
    else
      var pc := pcs[|pcs| - 1];
      Owed(p, pcs[..|pcs| - 1]) + if pc.AdvRelease? then pc.k else if pc.AdvStop? then p.workers - 1 else 0
  }

  lemma {:induction false} SumCounts(p: Program, pcs: seq<Pc>)
    ensures Sum(p, pcs) ==
            |set w | 0 <= w < |pcs| && pcs[w].Wait?| + |set w | 0 <= w < |pcs| && Advancing(pcs[w])| - Owed(p, pcs)
  {
    if pcs != [] {
      var n := |pcs| - 1;
      SumUpdate(p, pcs, n, Top);
      SumLast(p, pcs[..n]);
      assert pcs[n := Top] == pcs[..n] + [Top];
      SumCounts(p, pcs[..n]);
      CountLast(pcs, pcs[..n], n);
    }
  }

  lemma CountLast(pcs: seq<Pc>, init: seq<Pc>, n: nat)
    requires |pcs| == n + 1 && init == pcs[..n]
    ensures |set w | 0 <= w < |pcs| && pcs[w].Wait?| == |set w | 0 <= w < n && init[w].Wait?| + if pcs[n].Wait? then 1 else 0
    ensures |set w | 0 <= w < |pcs| && Advancing(pcs[w])| ==
            |set w | 0 <= w < n && Advancing(init[w])| + if Advancing(pcs[n]) then 1 else 0
  {
    var waits, advs := set w | 0 <= w < |pcs| && pcs[w].Wait?, set w | 0 <= w < |pcs| && Advancing(pcs[w]);
    assert (set w | 0 <= w < n && init[w].Wait?) == waits - {n};
    assert (set w | 0 <= w < n && Advancing(init[w])) == advs - {n};
  }

  lemma {:induction false} SumLast(p: Program, pcs: seq<Pc>)
    ensures Sum(p, pcs + [Top]) == Sum(p, pcs)
  {
    if pcs == [] {
      assert ([] + [Top])[1..] == [];
    } else {
      assert (pcs + [Top])[1..] == pcs[1..] + [Top];
      SumLast(p, pcs[1..]);
    }
  }

  /** In every reachable state: until the stop signal the idle counter is the waiting workers plus the
      advancer minus the credits, released or owed; after it, credits released or owed are exactly
      the waiting workers, so each of them will be woken. */
  lemma IdleCounterIsExact(p: Program, states: seq<State>, acts: seq<Act>, n: nat)
    requires p.Valid() && IsRun(p, states, acts) && n < |states|
    ensures var d := states[n].desk;
      && 0 <= d.idle <= p.workers
      && (!d.stopped ==> d.idle == |Waiting(states[n])| + |Advancers(states[n])| - d.credits - Owed(p, d.pcs))
      && (d.stopped ==> d.credits + Owed(p, d.pcs) == |Waiting(states[n])|)
  {
    var at := RunKeeps(p, states, acts, n);
    SumCounts(p, states[n].desk.pcs);
    if states[n].desk.stopped { assert Advancers(states[n]) == {}; }
  }

  /** At most one worker advances, and only while every other worker waits with no credit to wake
      it: no reaction is in a worker's hand. */
  lemma AdvancerIsAlone(p: Program, states: seq<State>, acts: seq<Act>, n: nat, w: nat, v: nat)
    requires p.Valid() && IsRun(p, states, acts) && n < |states|
    requires w < |states[n].desk.pcs| && v < |states[n].desk.pcs| && v != w && Solo(states[n].desk.pcs[w])
    ensures states[n].desk.pcs[v].Wait? && states[n].desk.credits == 0
  {
    var at := RunKeeps(p, states, acts, n);
    SoloIsAlone(p, states[n].desk, w);
  }

  /** While workers work, all reactions in hand are of one level and every lower vector is empty. */
  lemma WorkersShareALevel(p: Program, states: seq<State>, acts: seq<Act>, n: nat, w: nat, v: nat)
    requires p.Valid() && IsRun(p, states, acts) && n < |states|
    requires w < |states[n].desk.pcs| && v < |states[n].desk.pcs|
    requires HasHand(states[n].desk.pcs[w]) && HasHand(states[n].desk.pcs[v])
    ensures p.Knows(states[n].desk.pcs[w].r) && p.Knows(states[n].desk.pcs[v].r)
    ensures p.level[states[n].desk.pcs[w].r] == p.level[states[n].desk.pcs[v].r]
    ensures w != v ==> states[n].desk.pcs[w].r != states[n].desk.pcs[v].r
  {
    var at := RunKeeps(p, states, acts, n);
    assert AtLevelOf(p, states[n].v.indexes, states[n].v.next, states[n].desk.pcs[w]);
    assert AtLevelOf(p, states[n].v.indexes, states[n].v.next, states[n].desk.pcs[v]);
  }

  /** Unless every worker has left, some worker can take a step. */
  lemma NotAllBlocked(p: Program, states: seq<State>, acts: seq<Act>, n: nat)
    requires p.Valid() && IsRun(p, states, acts) && n < |states|
    requires exists w :: 0 <= w < |states[n].desk.pcs| && !states[n].desk.pcs[w].Exited?
    ensures exists w: nat, c: Choice :: Enabled(p, states[n], w, c)
  {
    var at := RunKeeps(p, states, acts, n);
    var w := SomebodyMoves(p, states[n]);
    var c := match states[n].desk.pcs[w]
      case Run(_) => FinishReaction
      case AdvTag => NoAdvance
      case AdvNext => EndNext
      case _ => NoChoice;
    assert Enabled(p, states[n], w, c);
  }

  lemma SomebodyMoves(p: Program, s: State) returns (w: nat)
    requires p.Valid() && Coordination(p, s.desk)
    requires exists x :: 0 <= x < |s.desk.pcs| && !s.desk.pcs[x].Exited?
    ensures w < |s.desk.pcs| && !s.desk.pcs[w].Exited? && (s.desk.pcs[w].Wait? ==> s.desk.credits > 0)
  {
    if x :| 0 <= x < |s.desk.pcs| && !s.desk.pcs[x].Exited? && !s.desk.pcs[x].Wait? {
      w := x;
    } else {
      w :| w < |s.desk.pcs| && !s.desk.pcs[w].Exited?;
      if s.desk.stopped {
        WaitersHaveCredit(p, s.desk.pcs, w);
      } else {
        AllWait(p, s.desk.pcs);
      }
    }
  }

  lemma {:induction false} WaitersHaveCredit(p: Program, pcs: seq<Pc>, w: nat)
    requires w < |pcs| && pcs[w].Wait? && forall v | 0 <= v < |pcs| :: pcs[v].Wait? || pcs[v].Exited?
    ensures Sum(p, pcs) > 0
    decreases pcs
  {
    if w == 0 {
      NoDebt(p, pcs[1..]);
    } else {
      WaitersHaveCredit(p, pcs[1..], w - 1);
    }
  }

  lemma {:induction false} NoDebt(p: Program, pcs: seq<Pc>)
    requires forall v | 0 <= v < |pcs| :: pcs[v].Wait? || pcs[v].Exited?
    ensures Sum(p, pcs) >= 0
  {
    if pcs != [] { NoDebt(p, pcs[1..]); }
  }

  /** Workers are told to stop only at or after the stop tag, with every reaction triggered at the
      current tag finished, every vector empty and no reaction queued. */
  lemma StopsAfterLastReaction(p: Program, states: seq<State>, acts: seq<Act>, n: nat)
    requires p.Valid() && IsRun(p, states, acts) && n < |states| && states[n].desk.stopped
    ensures AtMost(states[n].clock.stop, states[n].clock.current)
    ensures forall r: nat | Triggered(r) in states[n].log :: Finished(r) in states[n].log
    ensures forall r | 0 <= r < |states[n].queued| :: !states[n].queued[r]
    ensures forall l | 0 <= l < |states[n].v.slots| :: forall k | 0 <= k < |states[n].v.slots[l]| :: states[n].v.slots[l][k].Empty?
  {
    var at := RunKeeps(p, states, acts, n);
    RoundComplete(p, states[n].log, states[n].v, at, states[n].desk.pcs, states[n].queued);
  }

  /** Stop tags are only ever lowered to a tag that is still ahead. */
  ghost predicate StopsAhead(states: seq<State>, acts: seq<Act>)
    requires |states| == |acts| + 1
  {
    && AtMost(states[0].clock.current, states[0].clock.stop)
    && forall i | 0 <= i < |acts| && acts[i].c.LowerStop? :: Before(states[i].clock.current, acts[i].c.tag)
  }

  lemma {:induction false} CurrentWithinStop(p: Program, states: seq<State>, acts: seq<Act>, n: nat)
    requires p.Valid() && IsRun(p, states, acts) && StopsAhead(states, acts) && n < |states|
    ensures AtMost(states[n].clock.current, states[n].clock.stop)
  {
    if n > 0 {
      CurrentWithinStop(p, states, acts, n - 1);
      ClockStep(p, states[n - 1], acts[n - 1].w, acts[n - 1].c, states[n]);
    }
  }

  lemma ClockStep(p: Program, s: State, w: nat, c: Choice, s': State)
    requires p.Valid() && Step(p, s, w, c, s') && AtMost(s.clock.current, s.clock.stop)
    requires c.LowerStop? ==> Before(s.clock.current, c.tag)
    ensures AtMost(s'.clock.current, s'.clock.stop)
  {
  }

  /** Then the workers are told to stop exactly at the stop tag. */
  lemma StopsAtTheStopTag(p: Program, states: seq<State>, acts: seq<Act>, n: nat)
    requires p.Valid() && IsRun(p, states, acts) && StopsAhead(states, acts) && n < |states| && states[n].desk.stopped
    ensures states[n].clock.current == states[n].clock.stop
  {
    var at := RunKeeps(p, states, acts, n);
    CurrentWithinStop(p, states, acts, n);
  }
}
