/** What the NP scheduler does with a pick, a trigger, the ready reactions of a level and the stop tag:
    the parts of the protocol that safety alone does not fix. */
module NpPicks {
  import opened Tags
  import opened NpModel
  import opened NpInvariant
  import opened NpTheorems

  // ---- one pick ----

  /** The slot holds a reaction with the key. */
  predicate HasKey(p: Program, slot: Slot, key: nat) { slot.Holds? && slot.r < |p.key| && p.key[slot.r] == key }

  /** Slot i of the row is the first up to max with the key; the worker gives current for it. */
  ghost predicate Exchanged(p: Program, row: seq<Slot>, row': seq<Slot>, max: int, key: nat, current: Reaction, t: Reaction, i: nat) {
    && i <= max < |row| && row[i] == Holds(t) && HasKey(p, row[i], key) && row' == row[i := Holds(current)]
    && forall j | 0 <= j < i :: !HasKey(p, row[j], key)
  }

  /** If a slot up to max has the key, the first such reaction comes out and current goes in; if none
      has it, current stays. */
  ghost predicate PicksFrom(p: Program, row: seq<Slot>, row': seq<Slot>, max: int, key: nat, current: Reaction, t: Reaction) {
    if exists i :: 0 <= i <= max && i < |row| && HasKey(p, row[i], key)
    then exists i: nat :: Exchanged(p, row, row', max, key, current, t, i)
    else t == current && row' == row
  }

  /** Only the executing row can change. */
  predicate OnlyExecuting(v: Vectors, v': Vectors) {
    && v'.indexes == v.indexes && v'.next == v.next && v'.executing == v.executing && |v'.slots| == |v.slots|
    && forall l | 0 <= l < |v.slots| && l != v.executing :: v'.slots[l] == v.slots[l]
  }

  lemma RequeueExactly(p: Program, v: Vectors, current: Reaction, key: nat)
    requires 0 < v.next <= |v.indexes| && v.executing < |v.slots| && v.indexes[v.next - 1] < |v.slots[v.executing]|
    ensures Requeue(p, v, current, key).Ok?
    ensures var (v', t) := Requeue(p, v, current, key).value;
      && OnlyExecuting(v, v')
      && PicksFrom(p, v.slots[v.executing], v'.slots[v.executing], v.indexes[v.next - 1], key, current, t)
  {
    var max, row := v.indexes[v.next - 1], v.slots[v.executing];
    if max >= 0 {
      var i := Scan(p, row, key, 0, max);
      var (v', t) := Requeue(p, v, current, key).value;
      if i <= max { assert Exchanged(p, row, v'.slots[v.executing], max, key, current, t, i); }
    }
  }

  /** Nothing is lost or doubled by a pick. */
  lemma PickConserves(p: Program, row: seq<Slot>, row': seq<Slot>, max: int, key: nat, current: Reaction, t: Reaction)
    requires PicksFrom(p, row, row', max, key, current, t)
    ensures multiset(row') + multiset{Holds(t)} == multiset(row) + multiset{Holds(current)}
  {
    if exists i: nat :: Exchanged(p, row, row', max, key, current, t, i) {
      var i: nat :| Exchanged(p, row, row', max, key, current, t, i);
      assert multiset(row[i := Holds(current)]) == multiset(row) - multiset{row[i]} + multiset{Holds(current)};
    }
  }

  // ---- picks over runs ----

  lemma StepIs(p: Program, states: seq<State>, acts: seq<Act>, n: nat)
    requires p.Valid() && IsRun(p, states, acts) && n < |acts| && !acts[n].c.LowerStop?
    ensures Enabled(p, states[n], acts[n].w, acts[n].c) && states[n + 1] == Next(p, states[n], acts[n].w, acts[n].c)
  {
    assert Step(p, states[n], acts[n].w, acts[n].c, states[n + 1]);
  }

  /** A worker with a reaction in hand finds the vectors in order, with room for it in the row. */
  lemma HandInOrder(p: Program, s: State, at: seq<Place>, w: nat)
    requires p.Valid() && Inv(p, s, at) && w < |s.desk.pcs| && s.desk.pcs[w].Got?
    ensures var v, r := s.v, s.desk.pcs[w].r;
      && 0 < v.next <= |v.indexes| && v.executing == v.next - 1 < |v.slots|
      && v.indexes[v.next - 1] < |v.slots[v.executing]|
      && forall i | 0 <= i < |v.slots[v.executing]| && v.slots[v.executing][i].Holds? :: i <= v.indexes[v.next - 1]
  {
    var v, r := s.v, s.desk.pcs[w].r;
    assert AtLevelOf(p, v.indexes, v.next, s.desk.pcs[w]);
    forall u | 0 <= u < |s.desk.pcs| ensures !BetweenLevels(s.desk.pcs[u]) {
      if Solo(s.desk.pcs[u]) { assert Alone(s.desk.pcs, s.desk.credits, u); }
    }
    assert !s.desk.stopped;
    assert at[r] == Held(w);
    if v.indexes[p.level[r]] >= 0 { Room(p, v, at, r); }
  }

  /** The worker, holding r, starts t for a pick of the key. */
  ghost predicate Honours(p: Program, s: State, s': State, w: nat, r: Reaction, key: nat, t: Reaction) {
    && s.v.executing < |s.v.slots| && OnlyExecuting(s.v, s'.v)
    && w < |s.desk.pcs| && s'.desk.pcs == s.desk.pcs[w := Run(t)] && s'.log == s.log + [Started(t)]
    && var row, row' := s.v.slots[s.v.executing], s'.v.slots[s.v.executing];
      if exists i :: 0 <= i < |row| && HasKey(p, row[i], key)
      then && t < |p.key| && p.key[t] == key && Holds(t) in row
           && multiset(row') + multiset{Holds(t)} == multiset(row) + multiset{Holds(r)}
      else t == r && row' == row
  }

  lemma RowIsHonoured(p: Program, row: seq<Slot>, row': seq<Slot>, max: int, key: nat, r: Reaction, t: Reaction)
    requires PicksFrom(p, row, row', max, key, r, t) && forall i | 0 <= i < |row| && row[i].Holds? :: i <= max
    ensures if exists i :: 0 <= i < |row| && HasKey(p, row[i], key)
            then t < |p.key| && p.key[t] == key && Holds(t) in row
                 && multiset(row') + multiset{Holds(t)} == multiset(row) + multiset{Holds(r)}
            else t == r && row' == row
  {
    PickConserves(p, row, row', max, key, r, t);
  }

  lemma DispatchHonours(p: Program, s: State, at: seq<Place>, w: nat, key: nat) returns (t: Reaction)
    requires p.Valid() && Inv(p, s, at) && w < |s.desk.pcs| && s.desk.pcs[w].Got?
    ensures Honours(p, s, DispatchStep(p, s, w, s.desk.pcs[w].r, PickKey(key)), w, s.desk.pcs[w].r, key, t)
  {
    HandInOrder(p, s, at, w);
    t := VectorsHonour(p, s, w, s.desk.pcs[w].r, key);
  }

  lemma VectorsHonour(p: Program, s: State, w: nat, r: Reaction, key: nat) returns (t: Reaction)
    requires w < |s.desk.pcs| && 0 < s.v.next <= |s.v.indexes| && s.v.executing == s.v.next - 1 < |s.v.slots|
    requires var row, max := s.v.slots[s.v.executing], s.v.indexes[s.v.next - 1];
      max < |row| && forall i | 0 <= i < |row| && row[i].Holds? :: i <= max
    ensures Honours(p, s, DispatchStep(p, s, w, r, PickKey(key)), w, r, key, t)
  {
    var v := s.v;
    RequeueExactly(p, v, r, key);
    var (v', picked) := Requeue(p, v, r, key).value;
    t := picked;
    RowIsHonoured(p, v.slots[v.executing], v'.slots[v.executing], v.indexes[v.next - 1], key, r, t);
  }

  /** In every run: if a reaction of the executing row has the key picked, one with that key starts and
      the worker's own goes into its slot; if none has it, the worker's own starts. */
  lemma PickIsHonoured(p: Program, states: seq<State>, acts: seq<Act>, n: nat) returns (t: Reaction)
    requires p.Valid() && IsRun(p, states, acts) && n < |acts| && acts[n].c.PickKey?
    requires acts[n].w < |states[n].desk.pcs| && states[n].desk.pcs[acts[n].w].Got?
    ensures Honours(p, states[n], states[n + 1], acts[n].w, states[n].desk.pcs[acts[n].w].r, acts[n].c.key, t)
  {
    var s, w, key := states[n], acts[n].w, acts[n].c.key;
    var at := RunKeeps(p, states, acts, n);
    StepIs(p, states, acts, n);
    t := DispatchHonours(p, s, at, w, key);
    assert acts[n].c == PickKey(key);
  }

  /** Without a pick the worker starts what it popped. */
  lemma PoppedIsStarted(p: Program, states: seq<State>, acts: seq<Act>, n: nat)
    requires p.Valid() && IsRun(p, states, acts) && n < |acts| && acts[n].c == NoChoice
    requires acts[n].w < |states[n].desk.pcs| && states[n].desk.pcs[acts[n].w].Got?
    ensures var s, s', w := states[n], states[n + 1], acts[n].w;
      s'.v == s.v && s'.desk.pcs == s.desk.pcs[w := Run(s.desk.pcs[w].r)] && s'.log == s.log + [Started(s.desk.pcs[w].r)]
  {
  }

  // ---- triggers ----

  lemma TriggerQueues(p: Program, s: State, w: nat, c: Choice)
    requires p.Valid() && Enabled(p, s, w, c) && c.TriggerReaction? && |s.queued| == |p.level|
    ensures c.s < |Next(p, s, w, c).queued| && Next(p, s, w, c).queued[c.s]
  {
  }

  lemma QueuedIsDue(p: Program, s: State, at: seq<Place>, r: Reaction)
    requires Inv(p, s, at) && r < |s.queued| && s.queued[r]
    ensures Triggered(r) in s.log && Finished(r) !in s.log
  {
    assert Progress(s.log, r, at[r], s.desk.pcs);
  }

  /** A reaction that is triggered is due at this tag: its trigger is logged and it is not finished yet,
      whether it was queued before or not. */
  lemma TriggersTakeEffect(p: Program, states: seq<State>, acts: seq<Act>, n: nat)
    requires p.Valid() && IsRun(p, states, acts) && n < |acts| && acts[n].c.TriggerReaction?
    ensures Triggered(acts[n].c.s) in states[n + 1].log && Finished(acts[n].c.s) !in states[n + 1].log
  {
    var before := RunKeeps(p, states, acts, n);
    assert |states[n].queued| == |p.level| by { assert Hands(p, states[n].desk.pcs, states[n].queued, before); }
    StepIs(p, states, acts, n);
    TriggerQueues(p, states[n], acts[n].w, acts[n].c);
    var at := RunKeeps(p, states, acts, n + 1);
    QueuedIsDue(p, states[n + 1], at, acts[n].c.s);
  }

  // ---- the workers woken for a level ----

  lemma {:induction false} AllCount(p: Program, pcs: seq<Pc>)
    requires forall w | 0 <= w < |pcs| :: Weight(p, pcs[w]) == 1
    ensures Sum(p, pcs) == |pcs|
  {
    if pcs != [] { AllCount(p, pcs[1..]); }
  }

  /** The row holds n reactions, in its first slots. */
  predicate Filled(row: seq<Slot>, n: nat) {
    n <= |row| && forall i | 0 <= i < |row| :: row[i].Holds? <==> i < n
  }

  /** For a level with ready reactions exactly as many workers are set going, the advancer included, as
      there are reactions or workers, whichever is less. */
  lemma AsManyAsReady(p: Program, states: seq<State>, acts: seq<Act>, n: nat) returns (ready: nat)
    requires p.Valid() && IsRun(p, states, acts) && n < |acts| && !acts[n].c.LowerStop?
    requires acts[n].w < |states[n].desk.pcs| && states[n].desk.pcs[acts[n].w].AdvNotify?
    ensures var s, s', w := states[n], states[n + 1], acts[n].w;
      && 0 < s.v.next <= |s.v.slots| && 0 < ready && Filled(s.v.slots[s.v.next - 1], ready)
      && s'.desk.pcs == s.desk.pcs[w := AdvRelease((if ready < p.workers then ready else p.workers) - 1)]
  {
    var at := RunKeeps(p, states, acts, n);
    StepIs(p, states, acts, n);
    ready := ReadyRow(p, states[n], at, acts[n].w);
  }

  /** The advancer about to notify finds everyone idle and the row of its level filled up to the index. */
  lemma ReadyRow(p: Program, s: State, at: seq<Place>, w: nat) returns (ready: nat)
    requires p.Valid() && Inv(p, s, at) && w < |s.desk.pcs| && s.desk.pcs[w].AdvNotify?
    ensures s.desk.idle == p.workers && 0 < s.v.next <= |s.v.slots| == |s.v.indexes|
    ensures ready == s.v.indexes[s.v.next - 1] > 0 && Filled(s.v.slots[s.v.next - 1], ready)
  {
    assert AtLevelOf(p, s.v.indexes, s.v.next, s.desk.pcs[w]);
    assert Alone(s.desk.pcs, s.desk.credits, w);
    AllCount(p, s.desk.pcs);
    assert s.desk.pcs[w] == AdvNotify && !s.desk.stopped;
    ready := s.v.indexes[s.v.next - 1];
  }

  // ---- when the workers are told to stop ----

  /** The round at the current tag is complete. */
  predicate RoundOver(s: State) {
    if s.past == [] then s.clock.current == NEVER_TAG else s.past[|s.past| - 1].tag == s.clock.current
  }

  predicate LatestIs(s: State) { s.clock.latest == if s.past == [] then NEVER_TAG else s.past[|s.past| - 1].tag }

  lemma LatestStep(p: Program, s: State, w: nat, c: Choice)
    requires p.Valid() && LatestIs(s) && Enabled(p, s, w, c)
    ensures LatestIs(Next(p, s, w, c))
  {
    if !s.desk.pcs[w].AdvTag? { OnlyTagStep(p, s, w, c); }
  }

  lemma OnlyTagStep(p: Program, s: State, w: nat, c: Choice)
    requires p.Valid() && Enabled(p, s, w, c) && !s.desk.pcs[w].AdvTag?
    ensures Next(p, s, w, c).past == s.past && Next(p, s, w, c).clock == s.clock
  {
  }

  lemma {:induction false} StartIs(p: Program, first: seq<Reaction>, current: Tag, stop: Tag)
    ensures Start(p, first, current, stop).past == [] && Start(p, first, current, stop).clock == Clock(current, stop, NEVER_TAG)
  {
    if first != [] { StartIs(p, first[..|first| - 1], current, stop); }
  }

  lemma {:induction false} LatestHolds(p: Program, states: seq<State>, acts: seq<Act>, n: nat)
    requires p.Valid() && IsRun(p, states, acts) && n < |states|
    ensures LatestIs(states[n])
  {
    if n == 0 {
      var s := states[0];
      var first: seq<Reaction> :| StartOk(p, first) && s == Start(p, first, s.clock.current, s.clock.stop);
      StartIs(p, first, s.clock.current, s.clock.stop);
    } else {
      LatestHolds(p, states, acts, n - 1);
      if acts[n - 1].c.LowerStop? {
        assert Step(p, states[n - 1], acts[n - 1].w, acts[n - 1].c, states[n]);
      } else {
        StepIs(p, states, acts, n - 1);
        LatestStep(p, states[n - 1], acts[n - 1].w, acts[n - 1].c);
      }
    }
  }

  /** The advancer tells the workers to stop exactly when the round at the current tag is over and that
      tag is at or past the stop tag; otherwise it closes the round. */
  lemma StopsIff(p: Program, states: seq<State>, acts: seq<Act>, n: nat)
    requires p.Valid() && IsRun(p, states, acts) && n < |acts| && !acts[n].c.LowerStop?
    requires acts[n].w < |states[n].desk.pcs| && states[n].desk.pcs[acts[n].w].AdvTag?
    ensures var s, s', c := states[n], states[n + 1], acts[n].c;
      var stops := RoundOver(s) && AtMost(s.clock.stop, s.clock.current);
      && (s'.desk.stopped <==> stops)
      && (!stops ==> s'.past == s.past + [Round(s.clock.current, s.log)] && s'.log == []
                     && s'.clock.current == if c.AdvanceTo? then c.tag else s.clock.current)
  {
    LatestHolds(p, states, acts, n);
    var at := RunKeeps(p, states, acts, n);
    assert Solo(states[n].desk.pcs[acts[n].w]);
    assert !states[n].desk.stopped;
  }
}
