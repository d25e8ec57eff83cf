/** What the GEDF scheduler does at the head of its queue, with a pick and with a trigger: the parts of
    the protocol that safety alone does not fix. */
module GedfExact {
  import opened Gedf

  // ---- the head of the queue ----

  /** A worker that finds the queue not empty looks at a reaction r than which none is more urgent. If r
      is of the current level it takes r; if not, it waits as long as another worker is off the
      condition variable, and else moves the level up by one, from the last one back to 0. */
  lemma HeadExactly(p: Program, states: seq<State>, acts: seq<Act>, n: nat) returns (r: Reaction)
    requires p.Valid() && IsRun(p, states, acts) && n < |acts| && states[n].pcs[acts[n].w].Sched?
    requires !states[n].stopped && states[n].queue != {}
    ensures var s, s', w := states[n], states[n + 1], acts[n].w;
      var last := forall v | 0 <= v < |s.pcs| && v != w :: s.pcs[v].Waiting?;
      && r in s.queue && p.Knows(r) && (forall x | x in s.queue :: p.Knows(x) && p.index[r] <= p.index[x])
      && (s'.pcs[w].Got? <==> p.Level(r) == s.currentLevel)
      && (s'.pcs[w].Got? ==> s'.pcs[w].r == r && s'.queue == s.queue - {r})
      && (s'.pcs[w].Waiting? <==> p.Level(r) != s.currentLevel && !last)
      && s'.currentLevel == if p.Level(r) == s.currentLevel || !last then s.currentLevel
                            else if s.currentLevel >= p.maxLevel then 0 else s.currentLevel + 1
  {
    RunKeeps(p, states, acts, n);
    var s, w := states[n], acts[n].w;
    r := acts[n].c.r;
    LastIff(s.pcs, w);
  }

  lemma LastIff(pcs: seq<Pc>, w: nat)
    requires w < |pcs| && !pcs[w].Waiting?
    ensures |WaitingSet(pcs)| == |pcs| - 1 <==> forall v | 0 <= v < |pcs| && v != w :: pcs[v].Waiting?
  {
    var full := pcs[w := Waiting];
    WaitingUpdate(pcs, w, Waiting);
    if forall v | 0 <= v < |pcs| && v != w :: pcs[v].Waiting? {
      AllWaiting(full);
    } else {
      var v :| 0 <= v < |pcs| && v != w && !pcs[v].Waiting?;
      SetBelow(WaitingSet(full) + {v}, |pcs|);
      assert v !in WaitingSet(full);
    }
  }

  // ---- the level comes round ----

  /** How many moves of the level lead from one to the other. */
  function Distance(p: Program, from: nat, to: nat): (d: nat)
    requires from <= p.maxLevel && to <= p.maxLevel
    ensures d <= p.maxLevel && (d == 0 <==> from == to)
  {
    if from <= to then to - from else p.maxLevel + 1 - from + to
  }

  lemma {:induction false} LevelInRange(p: Program, states: seq<State>, acts: seq<Act>, n: nat)
    requires IsRun(p, states, acts) && n < |states|
    ensures states[n].currentLevel <= p.maxLevel
  {
    if n > 0 { LevelInRange(p, states, acts, n - 1); }
  }

  /** Each look at a head of another level by the last worker off the condition variable brings the
      level one move nearer to it: after at most maxLevel such looks the head is taken. */
  lemma LevelComesRound(p: Program, states: seq<State>, acts: seq<Act>, n: nat)
    requires p.Valid() && IsRun(p, states, acts) && n < |acts| && states[n].pcs[acts[n].w].Sched?
    requires !states[n].stopped && states[n].queue != {} && acts[n].c.Peek?
    requires forall v | 0 <= v < |states[n].pcs| && v != acts[n].w :: states[n].pcs[v].Waiting?
    requires p.Knows(acts[n].c.r) && p.Level(acts[n].c.r) <= p.maxLevel
    ensures var s, s', to := states[n], states[n + 1], p.Level(acts[n].c.r);
      && s.currentLevel <= p.maxLevel && s'.currentLevel <= p.maxLevel
      && if to == s.currentLevel then s'.pcs[acts[n].w] == Got(acts[n].c.r)
         else s'.pcs == s.pcs && s'.queue == s.queue && Distance(p, s'.currentLevel, to) == Distance(p, s.currentLevel, to) - 1
  {
    LevelInRange(p, states, acts, n);
    RunKeeps(p, states, acts, n);
    LastIff(states[n].pcs, acts[n].w);
  }

  // ---- picks and triggers ----

  /** A pick starts the reaction picked, which was queued at the current level, and puts the worker's own
      back; without one the worker's own starts. */
  lemma DispatchExactly(p: Program, states: seq<State>, acts: seq<Act>, n: nat)
    requires p.Valid() && IsRun(p, states, acts) && n < |acts| && states[n].pcs[acts[n].w].Got?
    ensures var s, s', w, c := states[n], states[n + 1], acts[n].w, acts[n].c;
      var r := s.pcs[w].r;
      var t := if c.Pick? then c.t else r;
      && s'.pcs == s.pcs[w := Running(t)] && s'.log == s.log + [Started(t)]
      && p.Knows(t) && p.Level(t) == s.currentLevel && r !in s.queue
      && (c.Pick? ==> t in s.queue && t != r) && s'.queue == s.queue + {r} - {t} && s'.queued == s.queued
  {
    RunKeeps(p, states, acts, n);
    var s, w := states[n], acts[n].w;
    assert HandOk(p, s, s.pcs[w]) && InHand(s.pcs[w], s.pcs[w].r);
  }

  /** A reaction that is triggered is due at this tag, whether it was queued before or not. */
  lemma TriggersTakeEffect(p: Program, states: seq<State>, acts: seq<Act>, n: nat)
    requires p.Valid() && IsRun(p, states, acts) && n < |acts| && states[n].pcs[acts[n].w].Running? && acts[n].c.Trigger?
    ensures acts[n].c.s in states[n + 1].queued
    ensures NoBadPick(p, states, acts, n + 1) ==>
              Triggered(acts[n].c.s) in states[n + 1].log && Finished(acts[n].c.s) !in states[n + 1].log
  {
    RunKeeps(p, states, acts, n + 1);
  }
}
