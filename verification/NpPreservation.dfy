/** What each step of a worker does to each conjunct of the NP invariant. */
module NpPreservation {
  import opened Tags
  import opened NpModel
  import opened NpInvariant

  // ---- coordination: keeps itself ----

  predicate Working(pc: Pc) { !pc.Wait? && !Solo(pc) }

  /** The only ways a step of worker w changes the desk. */
  predicate DeskMove(p: Program, d: Desk, w: nat, d': Desk)
    requires w < |d.pcs|
  {
    var pc := d.pcs[w];
    && w < |d'.pcs| && d'.pcs == d.pcs[w := d'.pcs[w]]
    && var pc' := d'.pcs[w];
       || (Working(pc) && !pc.GoIdle? && Working(pc') && d' == d.(pcs := d'.pcs) &&
           (if d.stopped then pc.Top? && pc'.Exited? else !pc'.Exited?))
       || (pc.GoIdle? && d' == d.(pcs := d'.pcs, idle := d.idle + 1) &&
           pc' == if d.idle + 1 == p.workers then AdvReset else Wait)
       || (pc.Wait? && d.credits > 0 && pc' == Top && d' == d.(pcs := d'.pcs, credits := d.credits - 1))
       || (Advancing(pc) && Advancing(pc') && d' == d.(pcs := d'.pcs))
       || (Advancing(pc) && pc'.AdvRelease? && pc'.k < d.idle && d' == d.(pcs := d'.pcs, idle := d.idle - pc'.k - 1))
       || (pc.AdvRelease? && pc' == Top && d' == d.(pcs := d'.pcs, credits := d.credits + pc.k))
       || (Advancing(pc) && pc' == AdvStop && !d.stopped && d' == d.(pcs := d'.pcs, stopped := true))
       || (pc.AdvStop? && pc' == Top && p.workers > 0 &&
           d' == d.(pcs := d'.pcs, credits := d.credits + p.workers - 1))
  }

  /** A worker that neither waits nor is alone: nobody is. */
  lemma NoSolo(p: Program, d: Desk, w: nat)
    requires Coordination(p, d) && w < |d.pcs| && Working(d.pcs[w])
    ensures forall v | 0 <= v < |d.pcs| :: !Solo(d.pcs[v])
    ensures !d.stopped ==> d.idle < p.workers
  {
  }

  lemma {:induction false} AllWait(p: Program, pcs: seq<Pc>)
    requires forall v | 0 <= v < |pcs| :: pcs[v].Wait?
    ensures Sum(p, pcs) == |pcs|
  {
    if pcs != [] { AllWait(p, pcs[1..]); }
  }

  lemma SoloIsAlone(p: Program, d: Desk, w: nat)
    requires Coordination(p, d) && p.workers > 0 && w < |d.pcs| && Solo(d.pcs[w])
    ensures Alone(d.pcs, d.credits, w)
    ensures Sum(p, d.pcs) == p.workers - 1 + Weight(p, d.pcs[w])
    ensures !d.stopped && Advancing(d.pcs[w]) ==> d.idle == p.workers
  {
    SumUpdate(p, d.pcs, w, Wait);
    AllWait(p, d.pcs[w := Wait]);
  }

  lemma DeskKept(p: Program, d: Desk, w: nat, d': Desk)
    requires p.Valid() && Coordination(p, d) && w < |d.pcs| && DeskMove(p, d, w, d')
    ensures Coordination(p, d')
  {
    SumUpdate(p, d.pcs, w, d'.pcs[w]);
    if Solo(d.pcs[w]) {
      SoloIsAlone(p, d, w);
      DeskKeptAlone(p, d, w, d');
    } else if !d.pcs[w].Wait? {
      NoSolo(p, d, w);
      OthersWait(p, d.pcs, w);
    } else {
      DeskKeptAcquire(p, d, w, d');
    }
  }

  lemma DeskKeptAcquire(p: Program, d: Desk, w: nat, d': Desk)
    requires p.Valid() && Coordination(p, d) && w < |d.pcs| && DeskMove(p, d, w, d') && d.pcs[w].Wait?
    requires Sum(p, d'.pcs) == Sum(p, d.pcs) - 1
    ensures Coordination(p, d')
  {
    if !d.stopped && d.idle == p.workers {
      var v :| 0 <= v < |d.pcs| && Advancing(d.pcs[v]);
      SoloIsAlone(p, d, v);
    }
  }

  lemma DeskKeptAlone(p: Program, d: Desk, w: nat, d': Desk)
    requires p.Valid() && Coordination(p, d) && w < |d.pcs| && DeskMove(p, d, w, d') && Solo(d.pcs[w])
    requires Alone(d.pcs, d.credits, w) && Sum(p, d.pcs) == p.workers - 1 + Weight(p, d.pcs[w])
    requires Sum(p, d'.pcs) == Sum(p, d.pcs) - Weight(p, d.pcs[w]) + Weight(p, d'.pcs[w])
    ensures Coordination(p, d')
  {
    assert d'.pcs[w] == d'.pcs[w];
  }

  // ---- the level vectors ----

  lemma RowsPop(p: Program, v: Vectors, at: seq<Place>, l: nat, w: nat)
    requires Rows(p, v, at) && l == v.executing < |v.slots|
    ensures PopReady(v, l).Ok?
    ensures var (v', slot) := PopReady(v, l).value;
      && v' == v.(slots := v'.slots, indexes := v.indexes[l := v.indexes[l] - 1])
      && (slot.Holds? <==> v.indexes[l] > 0)
      && (slot.Empty? ==> Rows(p, v', at))
      && (slot.Holds? ==>
            && p.Knows(slot.r) && p.level[slot.r] == l && at[slot.r].InSlot?
            && Rows(p, v', at[slot.r := Held(w)]))
  {
    if v.indexes[l] > 0 { RowsTake(p, v, at, l, w); } else { RowsEmpty(p, v, at, l); }
  }

  lemma RowsEmpty(p: Program, v: Vectors, at: seq<Place>, l: nat)
    requires Rows(p, v, at) && l < |v.slots| && v.indexes[l] <= 0
    ensures Rows(p, v.(indexes := v.indexes[l := v.indexes[l] - 1]), at)
  {
  }

  lemma RowsTake(p: Program, v: Vectors, at: seq<Place>, l: nat, w: nat)
    requires Rows(p, v, at) && l < |v.slots| && v.indexes[l] > 0
    ensures var i := v.indexes[l] - 1;
      && v.slots[l][i].Holds? && p.Knows(v.slots[l][i].r) && at[v.slots[l][i].r] == InSlot(l, i) && p.level[v.slots[l][i].r] == l
      && Rows(p, v.(slots := v.slots[l := v.slots[l][i := Empty]], indexes := v.indexes[l := i]), at[v.slots[l][i].r := Held(w)])
  {
    var i := v.indexes[l] - 1;
    var r := v.slots[l][i].r;
    var v' := v.(slots := v.slots[l := v.slots[l][i := Empty]], indexes := v.indexes[l := i]);
    var at' := at[r := Held(w)];
    forall m, k | 0 <= m < |v'.slots| && 0 <= k < |v'.slots[m]| && v'.slots[m][k].Holds?
      ensures var x := v'.slots[m][k].r; p.Knows(x) && at'[x] == InSlot(m, k) && p.level[x] == m
    {
      assert v'.slots[m][k] == v.slots[m][k];
    }
  }

  lemma RowsInsert(p: Program, v: Vectors, at: seq<Place>, t: Reaction)
    requires p.Valid() && Rows(p, v, at) && p.Knows(t) && !at[t].InSlot? && v.indexes[p.level[t]] >= 0
    ensures InsertReaction(p, v, t).Ok?
    ensures var l := p.level[t];
      var v' := InsertReaction(p, v, t).value;
      && v' == v.(slots := v'.slots, indexes := v.indexes[l := v.indexes[l] + 1])
      && Rows(p, v', at[t := InSlot(l, v.indexes[l])])
  {
    Room(p, v, at, t);
    var l := p.level[t];
    var v', at' := InsertReaction(p, v, t).value, at[t := InSlot(l, v.indexes[l])];
    forall m, k | 0 <= m < |v'.slots| && 0 <= k < |v'.slots[m]| && v'.slots[m][k].Holds?
      ensures var x := v'.slots[m][k].r; p.Knows(x) && at'[x] == InSlot(m, k) && p.level[x] == m
    {
      if m != l || k != v.indexes[l] { assert v'.slots[m][k] == v.slots[m][k]; }
    }
  }

  /** The inclusive scan stays inside the vector, and what it finds changes places with current. */
  lemma RowsRequeue(p: Program, v: Vectors, at: seq<Place>, r: Reaction, key: nat, w: nat)
    requires p.Valid() && Rows(p, v, at) && p.Knows(r) && at[r] == Held(w)
    requires v.next == p.level[r] + 1 && v.executing == p.level[r]
    ensures Requeue(p, v, r, key).Ok?
    ensures var (v', t) := Requeue(p, v, r, key).value;
      && v' == v.(slots := v'.slots)
      && (t == r ==> v' == v)
      && (t != r ==> p.Knows(t) && p.level[t] == p.level[r] && at[t].InSlot? && Rows(p, v', at[r := at[t]][t := Held(w)]))
  {
    var l := p.level[r];
    if v.indexes[l] >= 0 {
      Room(p, v, at, r);
      var i := Scan(p, v.slots[l], key, 0, v.indexes[l]);
      if i <= v.indexes[l] {
        RowsSwap(p, v, at, r, w, l, i);
      }
    }
  }

  /** The reaction in slot i of level l goes to the worker, and the worker's into the slot. */
  lemma RowsSwap(p: Program, v: Vectors, at: seq<Place>, r: Reaction, w: nat, l: nat, i: nat)
    requires Rows(p, v, at) && p.Knows(r) && at[r] == Held(w) && p.level[r] == l < |v.slots| && i < |v.slots[l]|
    requires v.slots[l][i].Holds?
    ensures var t := v.slots[l][i].r;
      && p.Knows(t) && p.level[t] == l && at[t] == InSlot(l, i) && t != r
      && Rows(p, v.(slots := v.slots[l := v.slots[l][i := Holds(r)]]), at[r := at[t]][t := Held(w)])
  {
    var t := v.slots[l][i].r;
    assert at[t] == InSlot(l, i);
    var v', at' := v.(slots := v.slots[l := v.slots[l][i := Holds(r)]]), at[r := at[t]][t := Held(w)];
    forall m, k | 0 <= m < |v'.slots| && 0 <= k < |v'.slots[m]| && v'.slots[m][k].Holds?
      ensures var x := v'.slots[m][k].r; p.Knows(x) && at'[x] == InSlot(m, k) && p.level[x] == m
    {
      if m != l || k != i { assert v'.slots[m][k] == v.slots[m][k]; }
    }
  }

  lemma RowsPut(p: Program, v: Vectors, at: seq<Place>, r: Reaction, place: Place)
    requires Rows(p, v, at) && p.Knows(r) && !at[r].InSlot? && !place.InSlot?
    ensures Rows(p, v, at[r := place])
  {
  }

  // ---- hands ----

  lemma HandsMove(p: Program, pcs: seq<Pc>, queued: seq<bool>, at: seq<Place>, w: nat, pc: Pc)
    requires Hands(p, pcs, queued, at) && w < |pcs|
    requires !HasHand(pcs[w]) && !HasPending(pcs[w]) && !HasHand(pc) && !HasPending(pc)
    ensures Hands(p, pcs[w := pc], queued, at)
  {
  }

  lemma HandsTake(p: Program, pcs: seq<Pc>, queued: seq<bool>, at: seq<Place>, w: nat, r: Reaction)
    requires Hands(p, pcs, queued, at) && w < |pcs| && !HasHand(pcs[w]) && !HasPending(pcs[w])
    requires p.Knows(r) && at[r].InSlot?
    ensures Hands(p, pcs[w := Got(r)], queued, at[r := Held(w)])
  {
  }

  /** The worker keeps its reaction, or swaps it for one from the vector. */
  lemma HandsDispatch(p: Program, pcs: seq<Pc>, queued: seq<bool>, at: seq<Place>, w: nat, t: Reaction)
    requires Hands(p, pcs, queued, at) && w < |pcs| && pcs[w].Got? && p.Knows(pcs[w].r) && p.Knows(t)
    requires t == pcs[w].r || at[t].InSlot?
    ensures Hands(p, pcs[w := Run(t)], queued, if t == pcs[w].r then at else at[pcs[w].r := at[t]][t := Held(w)])
  {
  }

  lemma HandsTrigger(p: Program, pcs: seq<Pc>, queued: seq<bool>, at: seq<Place>, w: nat, t: Reaction, pc: Pc)
    requires Hands(p, pcs, queued, at) && w < |pcs| && p.Knows(t) && !queued[t]
    requires (pcs[w].Run? && pc == Insert(pcs[w].r, t)) || (pcs[w].AdvNext? && pc == AdvInsert(t))
    ensures Hands(p, pcs[w := pc], queued[t := true], at[t := Pending(w)])
  {
  }

  lemma HandsInsert(p: Program, pcs: seq<Pc>, queued: seq<bool>, at: seq<Place>, w: nat, pc: Pc, place: Place)
    requires Hands(p, pcs, queued, at) && w < |pcs| && HasPending(pcs[w]) && p.Knows(pcs[w].s) && place.InSlot?
    requires if pcs[w].Insert? then pc == Run(pcs[w].r) else pc == AdvNext
    ensures Hands(p, pcs[w := pc], queued, at[pcs[w].s := place])
  {
  }

  lemma HandsFinish(p: Program, pcs: seq<Pc>, queued: seq<bool>, at: seq<Place>, w: nat)
    requires Hands(p, pcs, queued, at) && w < |pcs| && pcs[w].Run? && p.Knows(pcs[w].r)
    ensures Hands(p, pcs[w := Top], queued[pcs[w].r := false], at[pcs[w].r := Nowhere])
  {
  }

  // ---- the log ----

  lemma OrderlyAppend(p: Program, log: seq<Event>, e: Event)
    requires Orderly(p, log) && Legit(p, log, e)
    ensures Orderly(p, log + [e])
    ensures forall x :: x in log + [e] <==> x in log || x == e
  {
    assert (log + [e])[..|log|] == log;
  }

  /** Nothing is appended; no reaction starts or finishes; places change without leaving custody. */
  lemma LogQuiet(p: Program, log: seq<Event>, at: seq<Place>, pcs: seq<Pc>, at': seq<Place>, pcs': seq<Pc>)
    requires LogOk(p, log, at, pcs) && |at'| == |at|
    requires forall r | 0 <= r < |at| :: (at'[r] == Nowhere <==> at[r] == Nowhere)
    requires forall r | 0 <= r < |at| ::
      (at[r].Held? && at[r].w < |pcs| && !pcs[at[r].w].Got?) == (at'[r].Held? && at'[r].w < |pcs'| && !pcs'[at'[r].w].Got?)
    ensures LogOk(p, log, at', pcs')
  {
    forall r | 0 <= r < |at| ensures Progress(log, r, at'[r], pcs') {
      assert Progress(log, r, at[r], pcs);
    }
  }

  lemma LogTrigger(p: Program, log: seq<Event>, at: seq<Place>, pcs: seq<Pc>, w: nat, t: Reaction, pc: Pc, floor: nat)
    requires LogOk(p, log, at, pcs) && w < |pcs| && p.Knows(t) && at[t] == Nowhere
    requires !pcs[w].Got? && !pc.Got?
    requires floor <= p.level[t] && forall x: nat | Started(x) in log && p.Knows(x) :: p.level[x] < floor
    ensures LogOk(p, log + [Triggered(t)], at[t := Pending(w)], pcs[w := pc])
  {
    assert Progress(log, t, at[t], pcs);
    OrderlyAppend(p, log, Triggered(t));
    var at', pcs' := at[t := Pending(w)], pcs[w := pc];
    forall r | 0 <= r < |at| ensures Progress(log + [Triggered(t)], r, at'[r], pcs') {
      assert Progress(log, r, at[r], pcs);
    }
  }

  lemma LogStart(p: Program, log: seq<Event>, at: seq<Place>, pcs: seq<Pc>, w: nat, t: Reaction)
    requires LogOk(p, log, at, pcs) && w < |pcs| && p.Knows(t) && at[t] == Held(w) && pcs[w].Got?
    requires forall r | 0 <= r < |at| && at[r] == Held(w) :: r == t
    requires forall r | 0 <= r < |at| && at[r] != Nowhere :: p.level[r] >= p.level[t]
    ensures LogOk(p, log + [Started(t)], at, pcs[w := Run(t)])
  {
    assert Progress(log, t, at[t], pcs);
    forall x: nat | Triggered(x) in log ensures p.Knows(x) && (p.level[x] < p.level[t] ==> Finished(x) in log) {
      assert p.Knows(Triggered(x).r);
      assert Progress(log, x, at[x], pcs);
    }
    OrderlyAppend(p, log, Started(t));
    forall r | 0 <= r < |at| ensures Progress(log + [Started(t)], r, at[r], pcs[w := Run(t)]) {
      assert Progress(log, r, at[r], pcs);
    }
  }

  lemma LogFinish(p: Program, log: seq<Event>, at: seq<Place>, pcs: seq<Pc>, w: nat, t: Reaction)
    requires LogOk(p, log, at, pcs) && w < |pcs| && p.Knows(t) && at[t] == Held(w) && pcs[w] == Run(t)
    requires forall r | 0 <= r < |at| && at[r] == Held(w) :: r == t
    ensures LogOk(p, log + [Finished(t)], at[t := Nowhere], pcs[w := Top])
  {
    assert Progress(log, t, at[t], pcs);
    OrderlyAppend(p, log, Finished(t));
    var at', pcs' := at[t := Nowhere], pcs[w := Top];
    forall r | 0 <= r < |at| ensures Progress(log + [Finished(t)], r, at'[r], pcs') {
      assert Progress(log, r, at[r], pcs);
    }
  }

  // ---- levels, for a working worker ----

  lemma LevelsMove(p: Program, v: Vectors, d: Desk, w: nat, pc: Pc)
    requires Levels(p, v, d) && w < |d.pcs| && AtLevelOf(p, v.indexes, v.next, pc)
    requires BetweenLevels(d.pcs[w]) ==> BetweenLevels(pc)
    ensures Levels(p, v, d.(pcs := d.pcs[w := pc]))
  {
    var pcs' := d.pcs[w := pc];
    if !d.stopped && forall x | 0 <= x < |pcs'| :: !BetweenLevels(pcs'[x]) {
      forall x | 0 <= x < |d.pcs| ensures !BetweenLevels(d.pcs[x]) { assert !BetweenLevels(pcs'[x]); }
    }
  }

  lemma LevelsPop(p: Program, v: Vectors, d: Desk, v': Vectors)
    requires Levels(p, v, d) && v.next > 0 && !d.stopped && forall x | 0 <= x < |d.pcs| :: !Solo(d.pcs[x])
    requires v' == v.(slots := v'.slots, indexes := v.indexes[v.next - 1 := v.indexes[v.next - 1] - 1])
    ensures Levels(p, v', d)
  {
    forall x | 0 <= x < |d.pcs| ensures AtLevelOf(p, v'.indexes, v'.next, d.pcs[x]) {
      assert AtLevelOf(p, v.indexes, v.next, d.pcs[x]);
    }
  }

  /** An insertion at or above next_reaction_level, by a working worker or while the tag advances. */
  lemma LevelsInsert(p: Program, v: Vectors, d: Desk, v': Vectors, l: nat)
    requires Levels(p, v, d) && !d.stopped && v.next <= l < |v.indexes|
    requires v' == v.(slots := v'.slots, indexes := v.indexes[l := v.indexes[l] + 1])
    requires forall x | 0 <= x < |d.pcs| :: !d.pcs[x].AdvTag?
    ensures Levels(p, v', d)
  {
    forall x | 0 <= x < |d.pcs| ensures AtLevelOf(p, v'.indexes, v'.next, d.pcs[x]) {
      assert AtLevelOf(p, v.indexes, v.next, d.pcs[x]);
    }
  }

  lemma FloorMove(p: Program, log: seq<Event>, next: nat, d: Desk, w: nat, pc: Pc)
    requires Floor(p, log, next, d) && w < |d.pcs| && !d.pcs[w].AdvTag?
    ensures Floor(p, log, next, d.(pcs := d.pcs[w := pc]))
  {
    if x :| 0 <= x < |d.pcs| && d.pcs[x].AdvTag? {
      assert d.pcs[w := pc][x].AdvTag?;
    }
  }

  lemma NowMove(past: seq<Round>, current: Tag, log: seq<Event>, pcs: seq<Pc>, w: nat, pc: Pc)
    requires NowOk(past, current, log, pcs) && w < |pcs| && !pc.AdvNext? && !pc.AdvInsert?
    ensures NowOk(past, current, log, pcs[w := pc])
  {
  }

  /** A non-empty log is of a fresh tag. */
  lemma NowGrow(past: seq<Round>, current: Tag, log: seq<Event>, pcs: seq<Pc>, log': seq<Event>, pcs': seq<Pc>)
    requires NowOk(past, current, log, pcs)
    requires log != [] || exists w :: 0 <= w < |pcs| && (pcs[w].AdvNext? || pcs[w].AdvInsert?)
    ensures NowOk(past, current, log', pcs')
  {
  }

  // ---- levels and rounds, for the worker that is alone ----

  lemma LevelsAlone(p: Program, v: Vectors, d: Desk, w: nat)
    requires w < |d.pcs| && forall x | 0 <= x < |d.pcs| && x != w :: d.pcs[x].Wait?
    requires v.next <= |v.indexes| && AtLevelOf(p, v.indexes, v.next, d.pcs[w])
    requires if d.stopped then Used(v.indexes, |v.indexes|, 0)
             else BetweenLevels(d.pcs[w]) || (0 < v.next && v.executing == v.next - 1 && Used(v.indexes, v.next - 1, v.next))
    ensures Levels(p, v, d)
  {
    if !d.stopped && BetweenLevels(d.pcs[w]) {
      assert !forall x | 0 <= x < |d.pcs| :: !BetweenLevels(d.pcs[x]);
    }
  }

  lemma RowsReset(p: Program, v: Vectors, at: seq<Place>)
    requires Rows(p, v, at) && 0 < v.next <= |v.indexes| && v.indexes[v.next - 1] < 0
    ensures Rows(p, v.(indexes := v.indexes[v.next - 1 := 0]), at)
  {
  }

  lemma RowsDistribute(p: Program, v: Vectors, at: seq<Place>)
    requires p.Valid() && Rows(p, v, at) && v.next <= |v.indexes| && Used(v.indexes, v.next, v.next)
    ensures Distribute(v).Ok?
    ensures var (v', found) := Distribute(v).value;
      && v' == v.(next := v'.next, executing := v'.executing)
      && v.next <= v'.next <= |v.indexes|
      && Rows(p, v', at)
      && (!found ==> v'.next == |v.indexes| && Used(v.indexes, v'.next, v'.next))
      && (found ==> 0 < v'.next && v'.executing == v'.next - 1)
      && (found ==> Used(v.indexes, v'.next - 1, v'.next) && v.indexes[v'.next - 1] > 0)
  {
    assert forall l | 0 <= l < |v.slots| :: v.slots[l][0].Holds? <==> 0 < v.indexes[l];
  }

  /** With every vector empty and every hand empty, the round is complete. */
  lemma RoundComplete(p: Program, log: seq<Event>, v: Vectors, at: seq<Place>, pcs: seq<Pc>, queued: seq<bool>)
    requires Rows(p, v, at) && Hands(p, pcs, queued, at) && LogOk(p, log, at, pcs)
    requires Used(v.indexes, |v.indexes|, 0)
    requires forall x | 0 <= x < |pcs| :: !HasHand(pcs[x]) && !HasPending(pcs[x])
    ensures Complete(p, log)
    ensures forall r | 0 <= r < |at| :: at[r] == Nowhere
  {
    forall r: nat | Triggered(r) in log ensures Finished(r) in log {
      assert p.Knows(Triggered(r).r);
      assert Progress(log, r, at[r], pcs);
    }
  }

  lemma PastGrows(p: Program, past: seq<Round>, current: Tag, log: seq<Event>, pcs: seq<Pc>)
    requires PastOk(p, past) && NowOk(past, current, log, pcs) && Complete(p, log)
    ensures PastOk(p, past + [Round(current, log)])
    ensures forall t | AtMost(current, t) ::
      forall i | 0 <= i <= |past| :: AtMost((past + [Round(current, log)])[i].tag, t)
  {
  }
}
