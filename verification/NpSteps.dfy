/** Every step of every worker keeps the invariant of the NP protocol. */
module NpSteps {
  import opened Tags
  import opened NpModel
  import opened NpInvariant
  import opened NpPreservation

  // ---- custody, for a working worker ----

  lemma TopCustody(p: Program, s: State, w: nat, at: seq<Place>)
    requires p.Valid() && Custody(p, s, at) && w < |s.desk.pcs| && s.desk.pcs[w].Top?
    ensures Custody(p, TopStep(s, w), at)
  {
    var s' := TopStep(s, w);
    assert !s'.faulted by { NoSolo(p, s.desk, w); }
    DeskKept(p, s.desk, w, s'.desk);
    HandsMove(p, s.desk.pcs, s.queued, at, w, s'.desk.pcs[w]);
    LevelsMove(p, s.v, s.desk, w, s'.desk.pcs[w]);
  }

  ghost function PopPlace(at: seq<Place>, w: nat, s': State): seq<Place> {
    if w < |s'.desk.pcs| && s'.desk.pcs[w].Got? && s'.desk.pcs[w].r < |at| then at[s'.desk.pcs[w].r := Held(w)] else at
  }

  lemma PopCustody(p: Program, s: State, w: nat, at: seq<Place>)
    requires p.Valid() && Custody(p, s, at) && w < |s.desk.pcs| && s.desk.pcs[w].Pop?
    ensures var s' := PopStep(s, w, s.desk.pcs[w].cl); Custody(p, s', PopPlace(at, w, s'))
  {
    var l := s.desk.pcs[w].cl;
    assert l + 1 == s.v.next && s.v.executing == l by { PopAt(p, s, w); }
    if s.v.indexes[l] > 0 {
      PopGets(p, s, w, at, l);
    } else {
      PopFindsNone(p, s, w, at, l);
    }
  }

  lemma PopAt(p: Program, s: State, w: nat)
    requires Levels(p, s.v, s.desk) && Coordination(p, s.desk) && w < |s.desk.pcs| && s.desk.pcs[w].Pop?
    ensures s.desk.pcs[w].cl + 1 == s.v.next && s.v.executing == s.desk.pcs[w].cl
  {
    NoSolo(p, s.desk, w);
    assert AtLevelOf(p, s.v.indexes, s.v.next, s.desk.pcs[w]);
  }

  lemma PopGets(p: Program, s: State, w: nat, at: seq<Place>, l: nat)
    requires p.Valid() && Custody(p, s, at) && w < |s.desk.pcs| && s.desk.pcs[w] == Pop(l)
    requires l + 1 == s.v.next <= |s.v.indexes| && s.v.executing == l && s.v.indexes[l] > 0
    ensures var s' := PopStep(s, w, l); Custody(p, s', PopPlace(at, w, s'))
  {
    RowsTake(p, s.v, at, l, w);
    var i := s.v.indexes[l] - 1;
    var r := s.v.slots[l][i].r;
    var s' := PopStep(s, w, l);
    assert s' == Go(s.(v := s.v.(slots := s.v.slots[l := s.v.slots[l][i := Empty]], indexes := s.v.indexes[l := i])), w, Got(r));
    DeskKept(p, s.desk, w, s'.desk);
    PopLevels(p, s, w, s');
    HandsTake(p, s.desk.pcs, s.queued, at, w, r);
  }

  lemma PopFindsNone(p: Program, s: State, w: nat, at: seq<Place>, l: nat)
    requires p.Valid() && Custody(p, s, at) && w < |s.desk.pcs| && s.desk.pcs[w] == Pop(l)
    requires l + 1 == s.v.next <= |s.v.indexes| && s.v.executing == l && s.v.indexes[l] <= 0
    ensures var s' := PopStep(s, w, l); Custody(p, s', PopPlace(at, w, s'))
  {
    RowsEmpty(p, s.v, at, l);
    var s' := PopStep(s, w, l);
    assert s' == Go(s.(v := s.v.(indexes := s.v.indexes[l := s.v.indexes[l] - 1])), w, GoIdle);
    DeskKept(p, s.desk, w, s'.desk);
    PopLevels(p, s, w, s');
    HandsMove(p, s.desk.pcs, s.queued, at, w, GoIdle);
  }

  lemma PopLevels(p: Program, s: State, w: nat, s': State)
    requires Levels(p, s.v, s.desk) && Coordination(p, s.desk) && w < |s.desk.pcs| && s.desk.pcs[w].Pop?
    requires s.v.next > 0
    requires s'.v == s.v.(slots := s'.v.slots, indexes := s.v.indexes[s.v.next - 1 := s.v.indexes[s.v.next - 1] - 1])
    requires w < |s'.desk.pcs| && s'.desk == s.desk.(pcs := s.desk.pcs[w := s'.desk.pcs[w]])
    requires AtLevelOf(p, s'.v.indexes, s'.v.next, s'.desk.pcs[w])
    ensures Levels(p, s'.v, s'.desk)
  {
    NoSolo(p, s.desk, w);
    LevelsPop(p, s.v, s.desk, s'.v);
    LevelsMove(p, s'.v, s.desk, w, s'.desk.pcs[w]);
  }

  ghost function DispatchPlace(at: seq<Place>, w: nat, r: Reaction, s': State): seq<Place> {
    if w < |s'.desk.pcs| && s'.desk.pcs[w].Run? && s'.desk.pcs[w].r < |at| && r < |at| && s'.desk.pcs[w].r != r
    then at[r := at[s'.desk.pcs[w].r]][s'.desk.pcs[w].r := Held(w)] else at
  }

  lemma DispatchCustody(p: Program, s: State, w: nat, c: Choice, at: seq<Place>)
    requires p.Valid() && Custody(p, s, at) && w < |s.desk.pcs| && s.desk.pcs[w].Got?
    ensures var s' := DispatchStep(p, s, w, s.desk.pcs[w].r, c); Custody(p, s', DispatchPlace(at, w, s.desk.pcs[w].r, s'))
  {
    var r := s.desk.pcs[w].r;
    DispatchRows(p, s, w, c, at);
    var s' := DispatchStep(p, s, w, r, c);
    DispatchDesk(p, s, w, s'.desk.pcs[w]);
    HandsDispatch(p, s.desk.pcs, s.queued, at, w, s'.desk.pcs[w].r);
  }

  lemma DispatchDesk(p: Program, s: State, w: nat, pc: Pc)
    requires p.Valid() && Levels(p, s.v, s.desk) && Coordination(p, s.desk) && w < |s.desk.pcs| && s.desk.pcs[w].Got?
    requires pc.Run? && AtLevelOf(p, s.v.indexes, s.v.next, pc)
    ensures Coordination(p, s.desk.(pcs := s.desk.pcs[w := pc]))
    ensures forall slots :: Levels(p, s.v.(slots := slots), s.desk.(pcs := s.desk.pcs[w := pc]))
  {
    DeskKept(p, s.desk, w, s.desk.(pcs := s.desk.pcs[w := pc]));
    LevelsMove(p, s.v, s.desk, w, pc);
  }

  /** What a dispatch does to the vectors and to the worker. */
  lemma DispatchRows(p: Program, s: State, w: nat, c: Choice, at: seq<Place>)
    requires p.Valid() && Custody(p, s, at) && w < |s.desk.pcs| && s.desk.pcs[w].Got?
    ensures p.Knows(s.desk.pcs[w].r) && at[s.desk.pcs[w].r] == Held(w)
    ensures var r, s' := s.desk.pcs[w].r, DispatchStep(p, s, w, s.desk.pcs[w].r, c);
      && |s'.desk.pcs| == |s.desk.pcs| && s'.desk.pcs[w].Run?
      && s' == Go(s.(v := s.v.(slots := s'.v.slots)), w, s'.desk.pcs[w]).(log := s'.log)
      && p.Knows(s'.desk.pcs[w].r) && p.level[s'.desk.pcs[w].r] == p.level[r]
      && (s'.desk.pcs[w].r != r ==> at[s'.desk.pcs[w].r].InSlot?)
      && Rows(p, s'.v, DispatchPlace(at, w, r, s')) && AtLevelOf(p, s.v.indexes, s.v.next, s'.desk.pcs[w])
  {
    var r := s.desk.pcs[w].r;
    assert AtLevelOf(p, s.v.indexes, s.v.next, s.desk.pcs[w]);
    assert s.v.executing == s.v.next - 1 by { NoSolo(p, s.desk, w); }
    if c.PickKey? { RowsRequeue(p, s.v, at, r, c.key, w); }
  }

  ghost function TriggerPlace(s: State, at: seq<Place>, w: nat, t: Reaction): seq<Place> {
    if t < |at| && t < |s.queued| && !s.queued[t] then at[t := Pending(w)] else at
  }

  lemma TriggerCustody(p: Program, s: State, w: nat, t: Reaction, pc: Pc, at: seq<Place>)
    requires p.Valid() && Custody(p, s, at) && w < |s.desk.pcs| && p.Knows(t)
    requires || (s.desk.pcs[w].AdvNext? && pc == AdvInsert(t))
             || (s.desk.pcs[w].Run? && pc == Insert(s.desk.pcs[w].r, t) && p.Knows(s.desk.pcs[w].r)
                 && p.level[t] > p.level[s.desk.pcs[w].r])
    ensures Custody(p, TriggerStep(s, w, t, pc), TriggerPlace(s, at, w, t))
  {
    if !s.queued[t] {
      TriggerLevel(p, s, w, t, pc);
      DeskKept(p, s.desk, w, TriggerStep(s, w, t, pc).desk);
      RowsPut(p, s.v, at, t, Pending(w));
      HandsTrigger(p, s.desk.pcs, s.queued, at, w, t, pc);
    }
  }

  lemma TriggerLevel(p: Program, s: State, w: nat, t: Reaction, pc: Pc)
    requires Levels(p, s.v, s.desk) && w < |s.desk.pcs| && p.Knows(t)
    requires || (s.desk.pcs[w].AdvNext? && pc == AdvInsert(t))
             || (s.desk.pcs[w].Run? && pc == Insert(s.desk.pcs[w].r, t) && p.Knows(s.desk.pcs[w].r)
                 && p.level[t] > p.level[s.desk.pcs[w].r])
    ensures AtLevelOf(p, s.v.indexes, s.v.next, pc) && Levels(p, s.v, s.desk.(pcs := s.desk.pcs[w := pc]))
  {
    assert AtLevelOf(p, s.v.indexes, s.v.next, s.desk.pcs[w]);
    LevelsMove(p, s.v, s.desk, w, pc);
  }

  ghost function InsertPlace(p: Program, s: State, at: seq<Place>, t: Reaction): seq<Place> {
    if p.Knows(t) && t < |at| && p.level[t] < |s.v.indexes| && s.v.indexes[p.level[t]] >= 0
    then at[t := InSlot(p.level[t], s.v.indexes[p.level[t]])] else at
  }

  lemma InsertCustody(p: Program, s: State, w: nat, pc: Pc, at: seq<Place>)
    requires p.Valid() && Custody(p, s, at) && w < |s.desk.pcs| && HasPending(s.desk.pcs[w])
    requires if s.desk.pcs[w].Insert? then pc == Run(s.desk.pcs[w].r) else pc == AdvNext
    ensures Custody(p, InsertStep(p, s, w, s.desk.pcs[w].s, pc), InsertPlace(p, s, at, s.desk.pcs[w].s))
  {
    var t := s.desk.pcs[w].s;
    assert at[t] == Pending(w) && p.level[t] < |s.v.indexes|;
    InsertFacts(p, s, w, t);
    RowsInsert(p, s.v, at, t);
    var s' := InsertStep(p, s, w, t, pc);
    DeskKept(p, s.desk, w, s'.desk);
    HandsInsert(p, s.desk.pcs, s.queued, at, w, pc, InSlot(p.level[t], s.v.indexes[p.level[t]]));
    InsertLevels(p, s, w, s');
  }

  lemma InsertLevels(p: Program, s: State, w: nat, s': State)
    requires Levels(p, s.v, s.desk) && Coordination(p, s.desk) && p.workers > 0 && w < |s.desk.pcs|
    requires HasPending(s.desk.pcs[w]) && p.Knows(s.desk.pcs[w].s) && p.level[s.desk.pcs[w].s] < |s.v.indexes|
    requires var l := p.level[s.desk.pcs[w].s];
      s'.v == s.v.(slots := s'.v.slots, indexes := s.v.indexes[l := s.v.indexes[l] + 1])
    requires s'.desk == s.desk.(pcs := s.desk.pcs[w := if s.desk.pcs[w].Insert? then Run(s.desk.pcs[w].r) else AdvNext])
    ensures Levels(p, s'.v, s'.desk)
  {
    InsertFacts(p, s, w, s.desk.pcs[w].s);
    LevelsInsert(p, s.v, s.desk, s'.v, p.level[s.desk.pcs[w].s]);
    assert AtLevelOf(p, s'.v.indexes, s'.v.next, s.desk.pcs[w]);
    LevelsMove(p, s'.v, s.desk, w, s'.desk.pcs[w]);
  }

  lemma InsertFacts(p: Program, s: State, w: nat, t: Reaction)
    requires Levels(p, s.v, s.desk) && Coordination(p, s.desk) && p.workers > 0 && w < |s.desk.pcs|
    requires HasPending(s.desk.pcs[w]) && t == s.desk.pcs[w].s && p.Knows(t) && p.level[t] < |s.v.indexes|
    ensures !s.desk.stopped && s.v.next <= p.level[t] && s.v.indexes[p.level[t]] >= 0
    ensures forall x | 0 <= x < |s.desk.pcs| :: !s.desk.pcs[x].AdvTag?
  {
    assert AtLevelOf(p, s.v.indexes, s.v.next, s.desk.pcs[w]);
    if s.desk.pcs[w].Insert? { NoSolo(p, s.desk, w); } else { SoloIsAlone(p, s.desk, w); }
  }

  lemma FinishCustody(p: Program, s: State, w: nat, at: seq<Place>)
    requires p.Valid() && Custody(p, s, at) && w < |s.desk.pcs| && s.desk.pcs[w].Run?
    ensures s.desk.pcs[w].r < |at|
    ensures Custody(p, FinishStep(s, w, s.desk.pcs[w].r), at[s.desk.pcs[w].r := Nowhere])
  {
    var r := s.desk.pcs[w].r;
    assert at[r] == Held(w);
    var s' := FinishStep(s, w, r);
    DeskKept(p, s.desk, w, s'.desk);
    RowsPut(p, s.v, at, r, Nowhere);
    HandsFinish(p, s.desk.pcs, s.queued, at, w);
    LevelsMove(p, s.v, s.desk, w, Top);
  }

  lemma IdleCustody(p: Program, s: State, w: nat, at: seq<Place>)
    requires p.Valid() && Custody(p, s, at) && w < |s.desk.pcs| && s.desk.pcs[w].GoIdle?
    ensures Custody(p, IdleStep(p, s, w), at)
  {
    assert AtLevelOf(p, s.v.indexes, s.v.next, s.desk.pcs[w]);
    var s' := IdleStep(p, s, w);
    DeskKept(p, s.desk, w, s'.desk);
    HandsMove(p, s.desk.pcs, s.queued, at, w, s'.desk.pcs[w]);
    LevelsMove(p, s.v, s.desk, w, s'.desk.pcs[w]);
  }

  lemma AcquireCustody(p: Program, s: State, w: nat, at: seq<Place>)
    requires p.Valid() && Custody(p, s, at) && w < |s.desk.pcs| && s.desk.pcs[w].Wait? && s.desk.credits > 0
    ensures Custody(p, CreditStep(s, w, -1), at)
  {
    var s' := CreditStep(s, w, -1);
    DeskKept(p, s.desk, w, s'.desk);
    HandsMove(p, s.desk.pcs, s.queued, at, w, Top);
    LevelsMove(p, s.v, s.desk, w, Top);
  }

  // ---- custody, for the worker that is alone ----

  /** The vectors and the worker's place change together while everybody else waits. */
  lemma AloneCustody(p: Program, s: State, w: nat, at: seq<Place>, s': State)
    requires p.Valid() && Custody(p, s, at) && w < |s.desk.pcs| && Solo(s.desk.pcs[w]) && !HasPending(s.desk.pcs[w])
    requires DeskMove(p, s.desk, w, s'.desk) && !HasHand(s'.desk.pcs[w]) && !HasPending(s'.desk.pcs[w])
    requires s'.queued == s.queued && !s'.faulted && Rows(p, s'.v, at)
    requires s'.v.next <= |s'.v.indexes| && AtLevelOf(p, s'.v.indexes, s'.v.next, s'.desk.pcs[w])
    requires if s'.desk.stopped then Used(s'.v.indexes, |s'.v.indexes|, 0)
             else BetweenLevels(s'.desk.pcs[w])
                  || (0 < s'.v.next && s'.v.executing == s'.v.next - 1 && Used(s'.v.indexes, s'.v.next - 1, s'.v.next))
    ensures Custody(p, s', at)
  {
    DeskKept(p, s.desk, w, s'.desk);
    HandsMove(p, s.desk.pcs, s.queued, at, w, s'.desk.pcs[w]);
    assert Levels(p, s'.v, s'.desk) by {
      SoloIsAlone(p, s.desk, w);
      LevelsAlone(p, s'.v, s'.desk, w);
    }
  }

  /** What the levels are when the worker that is alone is between two levels, and when it is not. */
  lemma AloneFacts(p: Program, s: State, w: nat)
    requires Levels(p, s.v, s.desk) && Coordination(p, s.desk) && p.workers > 0 && w < |s.desk.pcs| && Solo(s.desk.pcs[w])
    ensures AtLevelOf(p, s.v.indexes, s.v.next, s.desk.pcs[w]) && s.v.next <= |s.v.indexes|
    ensures Advancing(s.desk.pcs[w]) ==> !s.desk.stopped && s.desk.idle == p.workers
    ensures !s.desk.stopped && !BetweenLevels(s.desk.pcs[w]) ==>
      0 < s.v.next && s.v.executing == s.v.next - 1 && Used(s.v.indexes, s.v.next - 1, s.v.next)
    ensures s.desk.stopped ==> Used(s.v.indexes, |s.v.indexes|, 0)
  {
    SoloIsAlone(p, s.desk, w);
  }

  lemma ResetCustody(p: Program, s: State, w: nat, at: seq<Place>)
    requires p.Valid() && Custody(p, s, at) && w < |s.desk.pcs| && s.desk.pcs[w].AdvReset?
    ensures Custody(p, ResetStep(s, w), at)
  {
    AloneFacts(p, s, w);
    RowsReset(p, s.v, at);
    AloneCustody(p, s, w, at, ResetStep(s, w));
  }

  lemma LoopCustody(p: Program, s: State, w: nat, at: seq<Place>)
    requires p.Valid() && Custody(p, s, at) && w < |s.desk.pcs| && s.desk.pcs[w].AdvLoop?
    ensures Custody(p, LoopStep(p, s, w), at)
  {
    AloneFacts(p, s, w);
    AloneCustody(p, s, w, at, LoopStep(p, s, w));
  }

  lemma TagCustody(p: Program, s: State, w: nat, c: Choice, at: seq<Place>)
    requires p.Valid() && Custody(p, s, at) && w < |s.desk.pcs| && s.desk.pcs[w].AdvTag? && (c.AdvanceTo? || c.NoAdvance?)
    ensures Custody(p, TagStep(s, w, c), at)
  {
    AloneFacts(p, s, w);
    AloneCustody(p, s, w, at, TagStep(s, w, c));
  }

  lemma EndNextCustody(p: Program, s: State, w: nat, at: seq<Place>)
    requires p.Valid() && Custody(p, s, at) && w < |s.desk.pcs| && s.desk.pcs[w].AdvNext?
    ensures Custody(p, Go(s, w, AdvDistribute), at)
  {
    AloneFacts(p, s, w);
    AloneCustody(p, s, w, at, Go(s, w, AdvDistribute));
  }

  lemma DistributeCustody(p: Program, s: State, w: nat, at: seq<Place>)
    requires p.Valid() && Custody(p, s, at) && w < |s.desk.pcs| && s.desk.pcs[w].AdvDistribute?
    ensures Custody(p, DistributeStep(s, w), at)
  {
    DistributeFacts(p, s, w, at);
    AloneCustody(p, s, w, at, DistributeStep(s, w));
  }

  /** What the distribution does to the vectors, the level and the advancer. */
  lemma DistributeFacts(p: Program, s: State, w: nat, at: seq<Place>)
    requires p.Valid() && Custody(p, s, at) && w < |s.desk.pcs| && s.desk.pcs[w].AdvDistribute?
    ensures !s.desk.stopped && s.v.next <= |s.v.indexes| && Distribute(s.v).Ok?
    ensures var s', v' := DistributeStep(s, w), Distribute(s.v).value.0;
      && s' == Go(s.(v := v'), w, if Distribute(s.v).value.1 then AdvNotify else AdvLoop)
      && v' == s.v.(next := v'.next, executing := v'.executing) && s.v.next <= v'.next <= |v'.indexes| && Rows(p, v', at)
      && AtLevelOf(p, v'.indexes, v'.next, s'.desk.pcs[w])
      && (s'.desk.pcs[w] == AdvNotify ==>
            0 < v'.next && v'.executing == v'.next - 1 && Used(v'.indexes, v'.next - 1, v'.next))
  {
    assert !s.desk.stopped && s.v.next <= |s.v.indexes| && Used(s.v.indexes, s.v.next, s.v.next) by { AloneFacts(p, s, w); }
    DistributeLevel(p, s.v, at);
  }

  lemma DistributeLevel(p: Program, v: Vectors, at: seq<Place>)
    requires p.Valid() && Rows(p, v, at) && v.next <= |v.indexes| && Used(v.indexes, v.next, v.next)
    ensures Distribute(v).Ok?
    ensures var (v', found) := Distribute(v).value;
      && v' == v.(next := v'.next, executing := v'.executing) && v.next <= v'.next <= |v'.indexes| && Rows(p, v', at)
      && AtLevelOf(p, v'.indexes, v'.next, if found then AdvNotify else AdvLoop)
      && (found ==> 0 < v'.next && v'.executing == v'.next - 1 && Used(v'.indexes, v'.next - 1, v'.next))
  {
    RowsDistribute(p, v, at);
  }

  lemma NotifyCustody(p: Program, s: State, w: nat, at: seq<Place>)
    requires p.Valid() && Custody(p, s, at) && w < |s.desk.pcs| && s.desk.pcs[w].AdvNotify?
    ensures Custody(p, NotifyStep(s, w), at)
  {
    AloneFacts(p, s, w);
    AloneCustody(p, s, w, at, NotifyStep(s, w));
  }

  lemma ReleaseCustody(p: Program, s: State, w: nat, at: seq<Place>)
    requires p.Valid() && Custody(p, s, at) && w < |s.desk.pcs| && (s.desk.pcs[w].AdvRelease? || s.desk.pcs[w].AdvStop?)
    ensures Custody(p, CreditStep(s, w, if s.desk.pcs[w].AdvRelease? then s.desk.pcs[w].k else p.workers - 1), at)
  {
    AloneFacts(p, s, w);
    AloneCustody(p, s, w, at, CreditStep(s, w, if s.desk.pcs[w].AdvRelease? then s.desk.pcs[w].k else p.workers - 1));
  }

  // ---- rounds: steps that append nothing to the log ----

  /** The place of every reaction and the progress of the worker's own are as before. */
  ghost predicate SameProgress(s: State, w: nat, at: seq<Place>, pc: Pc, at': seq<Place>)
    requires w < |s.desk.pcs|
  {
    || (at' == at && !HasHand(s.desk.pcs[w]) && !HasHand(pc))
    || (!HasHand(s.desk.pcs[w]) && pc.Got? && pc.r < |at| && at[pc.r].InSlot? && at' == at[pc.r := Held(w)])
    || (HasPending(s.desk.pcs[w]) && s.desk.pcs[w].s < |at| && at[s.desk.pcs[w].s].Pending? && |at'| == |at|
        && at'[s.desk.pcs[w].s].InSlot? && at' == at[s.desk.pcs[w].s := at'[s.desk.pcs[w].s]]
        && (if s.desk.pcs[w].Insert? then pc == Run(s.desk.pcs[w].r) else pc == AdvNext))
  }

  lemma QuietLog(p: Program, s: State, w: nat, at: seq<Place>, pc: Pc, at': seq<Place>)
    requires LogOk(p, s.log, at, s.desk.pcs) && Hands(p, s.desk.pcs, s.queued, at) && w < |s.desk.pcs|
    requires SameProgress(s, w, at, pc, at')
    ensures LogOk(p, s.log, at', s.desk.pcs[w := pc])
  {
    LogQuiet(p, s.log, at, s.desk.pcs, at', s.desk.pcs[w := pc]);
  }

  lemma QuietRounds(p: Program, s: State, w: nat, at: seq<Place>, s': State, at': seq<Place>)
    requires Rounds(p, s, at) && Hands(p, s.desk.pcs, s.queued, at) && w < |s.desk.pcs| && w < |s'.desk.pcs|
    requires s'.log == s.log && s'.past == s.past && s'.clock == s.clock
    requires s'.desk.stopped == s.desk.stopped && s'.desk.pcs == s.desk.pcs[w := s'.desk.pcs[w]]
    requires SameProgress(s, w, at, s'.desk.pcs[w], at')
    requires !s.desk.pcs[w].AdvTag? && (s.v.next <= s'.v.next || s'.desk.pcs[w].AdvTag?)
    requires s'.desk.pcs[w].AdvNext? || s'.desk.pcs[w].AdvInsert? ==> s.desk.pcs[w].AdvNext? || s.desk.pcs[w].AdvInsert?
    ensures Rounds(p, s', at')
  {
    var pc := s'.desk.pcs[w];
    QuietLog(p, s, w, at, pc, at');
    assert Floor(p, s'.log, s'.v.next, s'.desk) by {
      if pc.AdvTag? {
      } else {
        FloorMove(p, s.log, s.v.next, s.desk, w, pc);
        assert Floor(p, s.log, s.v.next, s.desk.(pcs := s'.desk.pcs));
        if x :| 0 <= x < |s'.desk.pcs| && s.desk.(pcs := s'.desk.pcs).pcs[x].AdvTag? { assert s'.desk.pcs[x].AdvTag?; }
      }
    }
    if s.desk.pcs[w].AdvNext? || s.desk.pcs[w].AdvInsert? {
      NowGrow(s.past, s.clock.current, s.log, s.desk.pcs, s.log, s'.desk.pcs);
    } else {
      NowMove(s.past, s.clock.current, s.log, s.desk.pcs, w, pc);
    }
  }

  // ---- rounds: steps that append to the log ----

  lemma NoTagAdvance(p: Program, s: State, w: nat)
    requires Coordination(p, s.desk) && p.workers > 0 && w < |s.desk.pcs|
    requires HasHand(s.desk.pcs[w]) || s.desk.pcs[w].AdvNext?
    ensures !s.desk.stopped && forall x | 0 <= x < |s.desk.pcs| :: !s.desk.pcs[x].AdvTag?
  {
    if s.desk.pcs[w].AdvNext? { SoloIsAlone(p, s.desk, w); } else { NoSolo(p, s.desk, w); }
  }

  lemma FloorOf(p: Program, s: State, w: nat)
    requires Coordination(p, s.desk) && p.workers > 0 && w < |s.desk.pcs| && Floor(p, s.log, s.v.next, s.desk)
    requires HasHand(s.desk.pcs[w]) || s.desk.pcs[w].AdvNext?
    ensures forall r: nat | Started(r) in s.log && p.Knows(r) :: p.level[r] < s.v.next
  {
    NoTagAdvance(p, s, w);
  }

  lemma TriggerRounds(p: Program, s: State, w: nat, t: Reaction, pc: Pc, at: seq<Place>)
    requires p.Valid() && Inv(p, s, at) && w < |s.desk.pcs| && p.Knows(t)
    requires || (s.desk.pcs[w].AdvNext? && pc == AdvInsert(t))
             || (s.desk.pcs[w].Run? && pc == Insert(s.desk.pcs[w].r, t) && p.Knows(s.desk.pcs[w].r)
                 && p.level[t] > p.level[s.desk.pcs[w].r])
    ensures Rounds(p, TriggerStep(s, w, t, pc), TriggerPlace(s, at, w, t))
  {
    if !s.queued[t] {
      assert LogOk(p, s.log + [Triggered(t)], at[t := Pending(w)], s.desk.pcs[w := pc]) by { TriggerLog(p, s, w, t, pc, at); }
      assert Floor(p, s.log + [Triggered(t)], s.v.next, s.desk.(pcs := s.desk.pcs[w := pc])) by { TriggerFloor(p, s, w, t, pc, at); }
      assert NowOk(s.past, s.clock.current, s.log + [Triggered(t)], s.desk.pcs[w := pc]) by { TriggerNow(p, s, w, t, pc, at); }
      assert !s.desk.stopped by { NoTagAdvance(p, s, w); }
    }
  }

  lemma TriggerLog(p: Program, s: State, w: nat, t: Reaction, pc: Pc, at: seq<Place>)
    requires p.Valid() && Inv(p, s, at) && w < |s.desk.pcs| && p.Knows(t) && !s.queued[t]
    requires || (s.desk.pcs[w].AdvNext? && pc == AdvInsert(t))
             || (s.desk.pcs[w].Run? && pc == Insert(s.desk.pcs[w].r, t) && p.Knows(s.desk.pcs[w].r)
                 && p.level[t] > p.level[s.desk.pcs[w].r])
    ensures LogOk(p, s.log + [Triggered(t)], at[t := Pending(w)], s.desk.pcs[w := pc])
  {
    assert AtLevelOf(p, s.v.indexes, s.v.next, s.desk.pcs[w]);
    FloorOf(p, s, w);
    LogTrigger(p, s.log, at, s.desk.pcs, w, t, pc, s.v.next);
  }

  lemma TriggerFloor(p: Program, s: State, w: nat, t: Reaction, pc: Pc, at: seq<Place>)
    requires p.Valid() && Inv(p, s, at) && w < |s.desk.pcs| && (s.desk.pcs[w].AdvNext? || s.desk.pcs[w].Run?)
    ensures Floor(p, s.log + [Triggered(t)], s.v.next, s.desk.(pcs := s.desk.pcs[w := pc]))
  {
    FloorOf(p, s, w);
    assert forall r: nat | Started(r) in s.log + [Triggered(t)] :: Started(r) in s.log;
  }

  lemma TriggerNow(p: Program, s: State, w: nat, t: Reaction, pc: Pc, at: seq<Place>)
    requires p.Valid() && Inv(p, s, at) && w < |s.desk.pcs| && (s.desk.pcs[w].AdvNext? || s.desk.pcs[w].Run?)
    ensures NowOk(s.past, s.clock.current, s.log + [Triggered(t)], s.desk.pcs[w := pc])
  {
    if s.desk.pcs[w].Run? { LogOfHand(p, s, at, w); }
    NowGrow(s.past, s.clock.current, s.log, s.desk.pcs, s.log + [Triggered(t)], s.desk.pcs[w := pc]);
  }

  lemma LogOfHand(p: Program, s: State, at: seq<Place>, w: nat)
    requires LogOk(p, s.log, at, s.desk.pcs) && Hands(p, s.desk.pcs, s.queued, at) && w < |s.desk.pcs| && HasHand(s.desk.pcs[w])
    ensures s.log != []
  {
    var r := s.desk.pcs[w].r;
    assert Progress(s.log, r, at[r], s.desk.pcs);
  }

  /** Every reaction in custody is at the current level or above. */
  lemma CustodyFloor(p: Program, s: State, at: seq<Place>, w: nat, r: Reaction)
    requires p.Valid() && Custody(p, s, at) && w < |s.desk.pcs| && s.desk.pcs[w].Got? && p.Knows(r) && at[r] != Nowhere
    ensures p.level[r] + 1 >= s.v.next
  {
    NoSolo(p, s.desk, w);
    if !at[r].InSlot? {
      assert AtLevelOf(p, s.v.indexes, s.v.next, s.desk.pcs[at[r].w]);
    }
  }

  lemma DispatchLog(p: Program, s: State, w: nat, t: Reaction, at: seq<Place>, at': seq<Place>)
    requires p.Valid() && Custody(p, s, at) && LogOk(p, s.log, at, s.desk.pcs) && w < |s.desk.pcs| && s.desk.pcs[w].Got?
    requires p.Knows(t) && p.Knows(s.desk.pcs[w].r) && p.level[t] == p.level[s.desk.pcs[w].r]
    requires if t == s.desk.pcs[w].r then at' == at
             else at[t].InSlot? && at' == at[s.desk.pcs[w].r := at[t]][t := Held(w)]
    ensures LogOk(p, s.log + [Started(t)], at', s.desk.pcs[w := Run(t)])
  {
    var mid := s.desk.pcs[w := Got(t)];
    assert at[s.desk.pcs[w].r] == Held(w);
    assert LogOk(p, s.log, at', mid) by { LogQuiet(p, s.log, at, s.desk.pcs, at', mid); }
    assert forall x | 0 <= x < |at'| && at'[x] != Nowhere :: p.level[x] >= p.level[t] by { FloorOfHand(p, s, at, w); }
    LogStart(p, s.log, at', mid, w, t);
    assert mid[w := Run(t)] == s.desk.pcs[w := Run(t)];
  }

  /** Nothing in custody is below the level of a reaction in hand. */
  lemma FloorOfHand(p: Program, s: State, at: seq<Place>, w: nat)
    requires p.Valid() && Custody(p, s, at) && w < |s.desk.pcs| && s.desk.pcs[w].Got?
    ensures p.Knows(s.desk.pcs[w].r) && forall x | 0 <= x < |at| && at[x] != Nowhere :: p.level[x] >= p.level[s.desk.pcs[w].r]
  {
    assert AtLevelOf(p, s.v.indexes, s.v.next, s.desk.pcs[w]);
    forall x | 0 <= x < |at| && at[x] != Nowhere ensures p.level[x] >= p.level[s.desk.pcs[w].r] { CustodyFloor(p, s, at, w, x); }
  }

  lemma DispatchRounds(p: Program, s: State, w: nat, c: Choice, at: seq<Place>)
    requires p.Valid() && Inv(p, s, at) && w < |s.desk.pcs| && s.desk.pcs[w].Got?
    ensures var s' := DispatchStep(p, s, w, s.desk.pcs[w].r, c); Rounds(p, s', DispatchPlace(at, w, s.desk.pcs[w].r, s'))
  {
    var r := s.desk.pcs[w].r;
    assert AtLevelOf(p, s.v.indexes, s.v.next, s.desk.pcs[w]);
    assert at[r] == Held(w);
    if c.PickKey? {
      assert s.v.executing == s.v.next - 1 by { NoSolo(p, s.desk, w); }
      RowsRequeue(p, s.v, at, r, c.key, w);
    }
    var s' := DispatchStep(p, s, w, r, c);
    var t := s'.desk.pcs[w].r;
    DispatchLog(p, s, w, t, at, DispatchPlace(at, w, r, s'));
    DispatchFloor(p, s, w, t, at, s');
  }

  lemma DispatchFloor(p: Program, s: State, w: nat, t: Reaction, at: seq<Place>, s': State)
    requires p.Valid() && Inv(p, s, at) && w < |s.desk.pcs| && s.desk.pcs[w].Got? && p.Knows(t) && p.level[t] + 1 == s.v.next
    requires s'.log == s.log + [Started(t)] && s'.v.next == s.v.next && s'.desk == s.desk.(pcs := s.desk.pcs[w := Run(t)])
    ensures Floor(p, s'.log, s'.v.next, s'.desk)
    ensures NowOk(s.past, s.clock.current, s'.log, s'.desk.pcs)
  {
    FloorOf(p, s, w);
    LogOfHand(p, s, at, w);
    NowGrow(s.past, s.clock.current, s.log, s.desk.pcs, s'.log, s'.desk.pcs);
  }

  lemma FinishRounds(p: Program, s: State, w: nat, at: seq<Place>)
    requires p.Valid() && Inv(p, s, at) && w < |s.desk.pcs| && s.desk.pcs[w].Run? && s.desk.pcs[w].r < |at|
    ensures Rounds(p, FinishStep(s, w, s.desk.pcs[w].r), at[s.desk.pcs[w].r := Nowhere])
  {
    var r := s.desk.pcs[w].r;
    assert at[r] == Held(w);
    LogFinish(p, s.log, at, s.desk.pcs, w, r);
    FloorOf(p, s, w);
    LogOfHand(p, s, at, w);
    NowGrow(s.past, s.clock.current, s.log, s.desk.pcs, s.log + [Finished(r)], s.desk.pcs[w := Top]);
  }

  /** At the end of a round everything triggered in it is done; then the program stops or a new round begins. */
  lemma TagRounds(p: Program, s: State, w: nat, c: Choice, at: seq<Place>)
    requires p.Valid() && Inv(p, s, at) && w < |s.desk.pcs| && s.desk.pcs[w].AdvTag?
    requires c.NoAdvance? || (c.AdvanceTo? && Before(s.clock.current, c.tag))
    ensures Rounds(p, TagStep(s, w, c), at)
  {
    EndOfRound(p, s, w, at);
    var s' := TagStep(s, w, c);
    if s'.desk.stopped {
      LogQuiet(p, s.log, at, s.desk.pcs, at, s'.desk.pcs);
      NowMove(s.past, s.clock.current, s.log, s.desk.pcs, w, AdvStop);
    } else {
      forall r | 0 <= r < |at| ensures Progress([], r, at[r], s'.desk.pcs) { assert at[r] == Nowhere; }
      PastGrows(p, s.past, s.clock.current, s.log, s.desk.pcs);
      TagNow(s, w, c);
    }
  }

  lemma EndOfRound(p: Program, s: State, w: nat, at: seq<Place>)
    requires p.Valid() && Inv(p, s, at) && w < |s.desk.pcs| && s.desk.pcs[w].AdvTag?
    ensures !s.desk.stopped && Complete(p, s.log)
    ensures forall r | 0 <= r < |at| :: at[r] == Nowhere
    ensures forall x | 0 <= x < |s.desk.pcs| && x != w :: s.desk.pcs[x].Wait?
  {
    AloneFacts(p, s, w);
    SoloIsAlone(p, s.desk, w);
    RoundComplete(p, s.log, s.v, at, s.desk.pcs, s.queued);
  }

  lemma TagNow(s: State, w: nat, c: Choice)
    requires w < |s.desk.pcs| && forall x | 0 <= x < |s.desk.pcs| && x != w :: s.desk.pcs[x].Wait?
    requires NowOk(s.past, s.clock.current, s.log, s.desk.pcs)
    requires c.NoAdvance? || (c.AdvanceTo? && Before(s.clock.current, c.tag))
    requires !TagStep(s, w, c).desk.stopped
    ensures var s' := TagStep(s, w, c); NowOk(s'.past, s'.clock.current, s'.log, s'.desk.pcs)
  {
  }

  lemma QuietPop(p: Program, s: State, w: nat, at: seq<Place>)
    requires p.Valid() && Inv(p, s, at) && w < |s.desk.pcs| && s.desk.pcs[w].Pop?
    ensures var s' := PopStep(s, w, s.desk.pcs[w].cl); Rounds(p, s', PopPlace(at, w, s'))
  {
    assert AtLevelOf(p, s.v.indexes, s.v.next, s.desk.pcs[w]);
    assert s.v.executing == s.v.next - 1 by { NoSolo(p, s.desk, w); }
    RowsPop(p, s.v, at, s.v.next - 1, w);
    var s' := PopStep(s, w, s.desk.pcs[w].cl);
    QuietRounds(p, s, w, at, s', PopPlace(at, w, s'));
  }

  lemma QuietInsert(p: Program, s: State, w: nat, pc: Pc, at: seq<Place>)
    requires p.Valid() && Inv(p, s, at) && w < |s.desk.pcs| && HasPending(s.desk.pcs[w])
    requires if s.desk.pcs[w].Insert? then pc == Run(s.desk.pcs[w].r) else pc == AdvNext
    ensures Rounds(p, InsertStep(p, s, w, s.desk.pcs[w].s, pc), InsertPlace(p, s, at, s.desk.pcs[w].s))
  {
    var t := s.desk.pcs[w].s;
    assert at[t] == Pending(w) && p.level[t] < |s.v.indexes|;
    InsertFacts(p, s, w, t);
    RowsInsert(p, s.v, at, t);
    QuietRounds(p, s, w, at, InsertStep(p, s, w, t, pc), InsertPlace(p, s, at, t));
  }

  lemma QuietDistribute(p: Program, s: State, w: nat, at: seq<Place>)
    requires p.Valid() && Inv(p, s, at) && w < |s.desk.pcs| && s.desk.pcs[w].AdvDistribute?
    ensures Rounds(p, DistributeStep(s, w), at)
  {
    DistributeFacts(p, s, w, at);
    QuietRounds(p, s, w, at, DistributeStep(s, w), at);
  }

  // ---- all steps ----

  lemma TopKeeps(p: Program, s: State, w: nat)
    requires p.Valid() && Good(p, s) && w < |s.desk.pcs| && s.desk.pcs[w].Top?
    ensures Good(p, TopStep(s, w))
  {
    var at :| Inv(p, s, at);
    TopCustody(p, s, w, at);
    QuietRounds(p, s, w, at, TopStep(s, w), at);
    assert Inv(p, TopStep(s, w), at);
  }

  lemma IdleKeeps(p: Program, s: State, w: nat)
    requires p.Valid() && Good(p, s) && w < |s.desk.pcs| && s.desk.pcs[w].GoIdle?
    ensures Good(p, IdleStep(p, s, w))
  {
    var at :| Inv(p, s, at);
    IdleCustody(p, s, w, at);
    QuietRounds(p, s, w, at, IdleStep(p, s, w), at);
    assert Inv(p, IdleStep(p, s, w), at);
  }

  lemma AcquireKeeps(p: Program, s: State, w: nat)
    requires p.Valid() && Good(p, s) && w < |s.desk.pcs| && s.desk.pcs[w].Wait? && s.desk.credits > 0
    ensures Good(p, CreditStep(s, w, -1))
  {
    var at :| Inv(p, s, at);
    AcquireCustody(p, s, w, at);
    QuietRounds(p, s, w, at, CreditStep(s, w, -1), at);
    assert Inv(p, CreditStep(s, w, -1), at);
  }

  lemma ResetKeeps(p: Program, s: State, w: nat)
    requires p.Valid() && Good(p, s) && w < |s.desk.pcs| && s.desk.pcs[w].AdvReset?
    ensures Good(p, ResetStep(s, w))
  {
    var at :| Inv(p, s, at);
    ResetCustody(p, s, w, at);
    QuietRounds(p, s, w, at, ResetStep(s, w), at);
    assert Inv(p, ResetStep(s, w), at);
  }

  lemma LoopKeeps(p: Program, s: State, w: nat)
    requires p.Valid() && Good(p, s) && w < |s.desk.pcs| && s.desk.pcs[w].AdvLoop?
    ensures Good(p, LoopStep(p, s, w))
  {
    var at :| Inv(p, s, at);
    LoopCustody(p, s, w, at);
    QuietRounds(p, s, w, at, LoopStep(p, s, w), at);
    assert Inv(p, LoopStep(p, s, w), at);
  }

  lemma EndNextKeeps(p: Program, s: State, w: nat)
    requires p.Valid() && Good(p, s) && w < |s.desk.pcs| && s.desk.pcs[w].AdvNext?
    ensures Good(p, Go(s, w, AdvDistribute))
  {
    var at :| Inv(p, s, at);
    EndNextCustody(p, s, w, at);
    QuietRounds(p, s, w, at, Go(s, w, AdvDistribute), at);
    assert Inv(p, Go(s, w, AdvDistribute), at);
  }

  lemma NotifyKeeps(p: Program, s: State, w: nat)
    requires p.Valid() && Good(p, s) && w < |s.desk.pcs| && s.desk.pcs[w].AdvNotify?
    ensures Good(p, NotifyStep(s, w))
  {
    var at :| Inv(p, s, at);
    NotifyCustody(p, s, w, at);
    QuietRounds(p, s, w, at, NotifyStep(s, w), at);
    assert Inv(p, NotifyStep(s, w), at);
  }

  lemma ReleaseKeeps(p: Program, s: State, w: nat)
    requires p.Valid() && Good(p, s) && w < |s.desk.pcs| && (s.desk.pcs[w].AdvRelease? || s.desk.pcs[w].AdvStop?)
    ensures Good(p, CreditStep(s, w, if s.desk.pcs[w].AdvRelease? then s.desk.pcs[w].k else p.workers - 1))
  {
    var at :| Inv(p, s, at);
    ReleaseCustody(p, s, w, at);
    QuietRounds(p, s, w, at, CreditStep(s, w, if s.desk.pcs[w].AdvRelease? then s.desk.pcs[w].k else p.workers - 1), at);
    assert Inv(p, CreditStep(s, w, if s.desk.pcs[w].AdvRelease? then s.desk.pcs[w].k else p.workers - 1), at);
  }

  lemma PopKeeps(p: Program, s: State, w: nat)
    requires p.Valid() && Good(p, s) && w < |s.desk.pcs| && s.desk.pcs[w].Pop?
    ensures Good(p, PopStep(s, w, s.desk.pcs[w].cl))
  {
    var at :| Inv(p, s, at);
    PopCustody(p, s, w, at);
    QuietPop(p, s, w, at);
    var s' := PopStep(s, w, s.desk.pcs[w].cl);
    assert Inv(p, s', PopPlace(at, w, s'));
  }

  lemma DispatchKeeps(p: Program, s: State, w: nat, c: Choice)
    requires p.Valid() && Good(p, s) && w < |s.desk.pcs| && s.desk.pcs[w].Got?
    ensures Good(p, DispatchStep(p, s, w, s.desk.pcs[w].r, c))
  {
    var at :| Inv(p, s, at);
    DispatchCustody(p, s, w, c, at);
    DispatchRounds(p, s, w, c, at);
    var s' := DispatchStep(p, s, w, s.desk.pcs[w].r, c);
    assert Inv(p, s', DispatchPlace(at, w, s.desk.pcs[w].r, s'));
  }

  lemma TriggerKeeps(p: Program, s: State, w: nat, t: Reaction, pc: Pc)
    requires p.Valid() && Good(p, s) && w < |s.desk.pcs| && p.Knows(t)
    requires || (s.desk.pcs[w].AdvNext? && pc == AdvInsert(t))
             || (s.desk.pcs[w].Run? && pc == Insert(s.desk.pcs[w].r, t) && p.Knows(s.desk.pcs[w].r)
                 && p.level[t] > p.level[s.desk.pcs[w].r])
    ensures Good(p, TriggerStep(s, w, t, pc))
  {
    var at :| Inv(p, s, at);
    TriggerCustody(p, s, w, t, pc, at);
    TriggerRounds(p, s, w, t, pc, at);
    assert Inv(p, TriggerStep(s, w, t, pc), TriggerPlace(s, at, w, t));
  }

  lemma FinishKeeps(p: Program, s: State, w: nat)
    requires p.Valid() && Good(p, s) && w < |s.desk.pcs| && s.desk.pcs[w].Run?
    ensures Good(p, FinishStep(s, w, s.desk.pcs[w].r))
  {
    var at :| Inv(p, s, at);
    FinishCustody(p, s, w, at);
    FinishRounds(p, s, w, at);
    assert Inv(p, FinishStep(s, w, s.desk.pcs[w].r), at[s.desk.pcs[w].r := Nowhere]);
  }

  lemma InsertKeeps(p: Program, s: State, w: nat, pc: Pc)
    requires p.Valid() && Good(p, s) && w < |s.desk.pcs| && HasPending(s.desk.pcs[w])
    requires if s.desk.pcs[w].Insert? then pc == Run(s.desk.pcs[w].r) else pc == AdvNext
    ensures Good(p, InsertStep(p, s, w, s.desk.pcs[w].s, pc))
  {
    var at :| Inv(p, s, at);
    InsertCustody(p, s, w, pc, at);
    QuietInsert(p, s, w, pc, at);
    assert Inv(p, InsertStep(p, s, w, s.desk.pcs[w].s, pc), InsertPlace(p, s, at, s.desk.pcs[w].s));
  }

  lemma TagKeeps(p: Program, s: State, w: nat, c: Choice)
    requires p.Valid() && Good(p, s) && Enabled(p, s, w, c) && s.desk.pcs[w].AdvTag?
    ensures Good(p, TagStep(s, w, c))
  {
    var at :| Inv(p, s, at);
    TagCustody(p, s, w, c, at);
    TagRounds(p, s, w, c, at);
    assert Inv(p, TagStep(s, w, c), at);
  }

  lemma DistributeKeeps(p: Program, s: State, w: nat)
    requires p.Valid() && Good(p, s) && w < |s.desk.pcs| && s.desk.pcs[w].AdvDistribute?
    ensures Good(p, DistributeStep(s, w))
  {
    var at :| Inv(p, s, at);
    DistributeCustody(p, s, w, at);
    QuietDistribute(p, s, w, at);
    assert Inv(p, DistributeStep(s, w), at);
  }

  lemma WorkingStepKeeps(p: Program, s: State, w: nat, c: Choice)
    requires p.Valid() && Good(p, s) && Enabled(p, s, w, c) && !Solo(s.desk.pcs[w])
    ensures Good(p, Next(p, s, w, c))
  {
    match s.desk.pcs[w]
    case Top => TopKeeps(p, s, w);
    case Pop(cl) => PopKeeps(p, s, w);
    case Got(r) => DispatchKeeps(p, s, w, c);
    case Run(r) => if c.TriggerReaction? { TriggerKeeps(p, s, w, c.s, Insert(r, c.s)); } else { FinishKeeps(p, s, w); }
    case Insert(r, t) => InsertKeeps(p, s, w, Run(r));
    case GoIdle => IdleKeeps(p, s, w);
    case Wait => AcquireKeeps(p, s, w);
  }

  lemma SoloStepKeeps(p: Program, s: State, w: nat, c: Choice)
    requires p.Valid() && Good(p, s) && Enabled(p, s, w, c) && Solo(s.desk.pcs[w])
    ensures Good(p, Next(p, s, w, c))
  {
    match s.desk.pcs[w]
    case AdvReset => ResetKeeps(p, s, w);
    case AdvLoop => LoopKeeps(p, s, w);
    case AdvTag => TagKeeps(p, s, w, c);
    case AdvNext => if c.TriggerReaction? { TriggerKeeps(p, s, w, c.s, AdvInsert(c.s)); } else { EndNextKeeps(p, s, w); }
    case AdvInsert(_) => InsertKeeps(p, s, w, AdvNext);
    case AdvDistribute => DistributeKeeps(p, s, w);
    case AdvNotify => NotifyKeeps(p, s, w);
    case AdvRelease(k) => ReleaseKeeps(p, s, w);
    case AdvStop => ReleaseKeeps(p, s, w);
  }

  /** The invariant is inductive. */
  lemma StepKeeps(p: Program, s: State, w: nat, c: Choice, s': State)
    requires p.Valid() && Good(p, s) && Step(p, s, w, c, s')
    ensures Good(p, s')
  {
    if c.LowerStop? {
      var at :| Inv(p, s, at);
      assert Inv(p, s', at);
    } else if Solo(s.desk.pcs[w]) {
      SoloStepKeeps(p, s, w, c);
    } else {
      WorkingStepKeeps(p, s, w, c);
    }
  }
}
