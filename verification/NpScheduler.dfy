/** The bodies of the NP scheduler's critical sections, as code over its own fields, each proved
    to be the operation the protocol uses. */
module NpScheduler {
  import M = NpModel
  import P = NpPicks

  class Scheduler {
    var triggered: seq<seq<M.Slot>>
    var indexes: seq<int>
    var nextReactionLevel: nat
    var executing: nat
    var idleWorkers: int
    var semaphore: nat

    function Vectors(): M.Vectors
      reads this
    {
      M.Vectors(triggered, indexes, nextReactionLevel, executing)
    }

    /** _lf_sched_insert_reaction: fetch-and-add on the level's index, then the store. */
    method InsertReaction(p: M.Program, r: M.Reaction)
      requires M.InsertReaction(p, Vectors(), r).Ok?
      modifies this`triggered, this`indexes
      ensures Vectors() == M.InsertReaction(p, old(Vectors()), r).value
    {
      var level := p.level[r];
      var i := indexes[level];
      indexes := indexes[level := i + 1];
      triggered := triggered[level := triggered[level][i := M.Holds(r)]];
    }

    /** The critical section of lf_sched_get_ready_reaction. */
    method PopReady(currentLevel: nat) returns (slot: M.Slot)
      requires M.PopReady(Vectors(), currentLevel).Ok?
      modifies this`triggered, this`indexes
      ensures (Vectors(), slot) == M.PopReady(old(Vectors()), currentLevel).value
    {
      slot := M.Empty;
      indexes := indexes[currentLevel := indexes[currentLevel] - 1];
      var i := indexes[currentLevel];
      if i >= 0 {
        slot := triggered[executing][i];
        triggered := triggered[executing := triggered[executing][i := M.Empty]];
      }
    }

    /** lf_sched_requeue_current_and_pick_by_key: the scan runs up to and including max_index. */
    method RequeueAndPick(p: M.Program, current: M.Reaction, key: nat) returns (picked: M.Reaction)
      requires M.Requeue(p, Vectors(), current, key).Ok?
      modifies this`triggered
      ensures (Vectors(), picked) == M.Requeue(p, old(Vectors()), current, key).value
      ensures P.OnlyExecuting(old(Vectors()), Vectors())
      ensures P.PicksFrom(p, old(triggered)[executing], triggered[executing], indexes[nextReactionLevel - 1], key, current, picked)
    {
      P.RequeueExactly(p, Vectors(), current, key);
      var maxIndex := indexes[nextReactionLevel - 1];
      picked := current;
      var i := 0;
      while i <= maxIndex
        invariant 0 <= i <= maxIndex + 1 || maxIndex < 0
        invariant maxIndex >= 0 ==> forall j | 0 <= j < i :: !M.Matches(p, triggered[executing][j], key)
        invariant picked == current && triggered == old(triggered)
      {
        var candidate := triggered[executing][i];
        if M.Matches(p, candidate, key) {
          picked := candidate.r;
          triggered := triggered[executing := triggered[executing][i := M.Holds(current)]];
          return;
        }
        i := i + 1;
      }
    }

    /** _lf_sched_distribute_ready_reactions. */
    method DistributeReady() returns (found: bool)
      requires M.Distribute(Vectors()).Ok?
      modifies this`nextReactionLevel, this`executing
      ensures (Vectors(), found) == M.Distribute(old(Vectors())).value
    {
      ghost var start := nextReactionLevel;
      while nextReactionLevel < |triggered|
        invariant start <= nextReactionLevel <= |triggered|
        invariant forall l | start <= l < nextReactionLevel :: triggered[l][0].Empty?
        invariant executing == if nextReactionLevel == start then old(executing) else nextReactionLevel - 1
      {
        executing := nextReactionLevel;
        nextReactionLevel := nextReactionLevel + 1;
        if triggered[executing][0].Holds? {
          return true;
        }
      }
      return false;
    }

    /** _lf_sched_notify_workers: in the protocol's state s, the count-back of worker w and then its
        release. The caller keeps one of the awakened workers for itself. */
    method NotifyWorkers(ghost s: M.State, ghost w: nat) returns (awakened: int)
      requires s.v == Vectors() && s.desk.idle == idleWorkers && s.desk.credits == semaphore && w < |s.desk.pcs|
      requires !s.faulted && !M.NotifyStep(s, w).faulted
      modifies this`idleWorkers, this`semaphore
      ensures awakened >= 1 && awakened <= old(idleWorkers) && awakened <= indexes[nextReactionLevel - 1]
      ensures awakened == old(idleWorkers) || awakened == indexes[nextReactionLevel - 1]
      ensures M.NotifyStep(s, w).desk.pcs[w] == M.AdvRelease(awakened - 1)
      ensures idleWorkers == M.NotifyStep(s, w).desk.idle
      ensures semaphore == M.CreditStep(M.NotifyStep(s, w), w, awakened - 1).desk.credits
    {
      awakened := if idleWorkers < indexes[nextReactionLevel - 1] then idleWorkers else indexes[nextReactionLevel - 1];
      idleWorkers := idleWorkers - awakened;
      if awakened > 1 {
        semaphore := semaphore + awakened - 1;
      }
    }
  }
}
