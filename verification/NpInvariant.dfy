/** The inductive invariant of the NP protocol. */
module NpInvariant {
  import opened Tags
  import opened NpModel

  /** The one place where a triggered reaction is. */
  datatype Place = Nowhere | InSlot(l: nat, k: nat) | Held(w: nat) | Pending(w: nat)

  predicate HasHand(pc: Pc) { pc.Got? || pc.Run? || pc.Insert? }

  predicate HasPending(pc: Pc) { pc.Insert? || pc.AdvInsert? }

  /** The worker counts itself idle and has the sole right to move the level and the tag. */
  predicate Advancing(pc: Pc) {
    pc.AdvReset? || pc.AdvLoop? || pc.AdvTag? || pc.AdvNext? || pc.AdvInsert? || pc.AdvDistribute? || pc.AdvNotify?
  }

  predicate Solo(pc: Pc) { Advancing(pc) || pc.AdvRelease? || pc.AdvStop? }

  /** The worker is between two levels: everything below next_reaction_level is used up. */
  predicate BetweenLevels(pc: Pc) {
    pc.AdvLoop? || pc.AdvTag? || pc.AdvNext? || pc.AdvInsert? || pc.AdvDistribute?
  }

  // ---- every queued reaction is in exactly one place ----

  ghost predicate Rows(p: Program, v: Vectors, at: seq<Place>) {
    && |at| == |p.level|
    && |v.slots| == |v.indexes| == |p.capacity|
    && (forall l | 0 <= l < |v.slots| :: |v.slots[l]| == p.capacity[l] && v.indexes[l] <= |v.slots[l]|)
    && (forall l, k | 0 <= l < |v.slots| && 0 <= k < |v.slots[l]| :: v.slots[l][k].Holds? <==> k < v.indexes[l])
    && (forall l, k | 0 <= l < |v.slots| && 0 <= k < |v.slots[l]| && v.slots[l][k].Holds? ::
          var r := v.slots[l][k].r; p.Knows(r) && at[r] == InSlot(l, k) && p.level[r] == l)
    && (forall r | 0 <= r < |at| && at[r].InSlot? ::
          at[r].l < |v.slots| && at[r].k < |v.slots[at[r].l]| && v.slots[at[r].l][at[r].k] == Holds(r))
  }

  ghost predicate Hands(p: Program, pcs: seq<Pc>, queued: seq<bool>, at: seq<Place>) {
    && |at| == |queued| == |p.level|
    && (forall w | 0 <= w < |pcs| && HasHand(pcs[w]) :: p.Knows(pcs[w].r) && at[pcs[w].r] == Held(w))
    && (forall w | 0 <= w < |pcs| && HasPending(pcs[w]) :: p.Knows(pcs[w].s) && at[pcs[w].s] == Pending(w))
    && (forall r | 0 <= r < |at| && at[r].Held? ::
          at[r].w < |pcs| && HasHand(pcs[at[r].w]) && pcs[at[r].w].r == r)
    && (forall r | 0 <= r < |at| && at[r].Pending? ::
          at[r].w < |pcs| && HasPending(pcs[at[r].w]) && pcs[at[r].w].s == r)
    && (forall r | 0 <= r < |at| :: queued[r] <==> at[r] != Nowhere)
  }

  // ---- the level discipline ----

  /** Levels below lo are used up, levels from hi on are intact. */
  ghost predicate Used(indexes: seq<int>, lo: int, hi: int) {
    && (forall l | 0 <= l < lo && l < |indexes| :: indexes[l] == 0)
    && (forall l | hi <= l < |indexes| && 0 <= l :: indexes[l] >= 0)
  }

  ghost predicate Levels(p: Program, v: Vectors, d: Desk) {
    && v.next <= |v.indexes|
    && (d.stopped ==> Used(v.indexes, |v.indexes|, 0))
    && (!d.stopped && (forall w | 0 <= w < |d.pcs| :: !BetweenLevels(d.pcs[w])) ==>
          0 < v.next && v.executing == v.next - 1 && Used(v.indexes, v.next - 1, v.next))
    && (forall w | 0 <= w < |d.pcs| :: AtLevelOf(p, v.indexes, v.next, d.pcs[w]))
  }

  /** What a worker's place says about the current level. */
  ghost predicate AtLevelOf(p: Program, indexes: seq<int>, next: nat, pc: Pc) {
    match pc
    case Pop(cl) => cl + 1 == next
    case Got(r) => p.Knows(r) && p.level[r] + 1 == next
    case Run(r) => p.Knows(r) && p.level[r] + 1 == next
    case Insert(r, t) => p.Knows(r) && p.Knows(t) && p.level[r] + 1 == next && p.level[t] >= next
    case GoIdle => 0 < next <= |indexes| && indexes[next - 1] < 0
    case AdvReset => 0 < next <= |indexes| && indexes[next - 1] < 0
    case AdvLoop => Used(indexes, next, next)
    case AdvTag => next == 0 && Used(indexes, |indexes|, 0)
    case AdvNext => next == 0 && Used(indexes, 0, 0)
    case AdvInsert(t) => next == 0 && Used(indexes, 0, 0) && p.Knows(t)
    case AdvDistribute => Used(indexes, next, next)
    case AdvNotify => 0 < next <= |indexes| && indexes[next - 1] > 0
    case _ => true
  }

  // ---- coordination ----

  /** What a worker contributes to idle + credits. */
  function Weight(p: Program, pc: Pc): int {
    if pc.Wait? || Advancing(pc) then 1
    else if pc.AdvRelease? then 0 - pc.k
    else if pc.AdvStop? then 1 - p.workers
    else 0
  }

  ghost function Sum(p: Program, pcs: seq<Pc>): int {
    if pcs == [] then 0 else Weight(p, pcs[0]) + Sum(p, pcs[1..])
  }

  ghost predicate Alone(pcs: seq<Pc>, credits: nat, w: nat) {
    credits == 0 && forall v | 0 <= v < |pcs| && v != w :: pcs[v].Wait?
  }

  ghost predicate Coordination(p: Program, d: Desk) {
    && |d.pcs| == p.workers
    && (forall w | 0 <= w < |d.pcs| && Solo(d.pcs[w]) :: Alone(d.pcs, d.credits, w))
    && (if d.stopped then 0 else d.idle) + d.credits == Sum(p, d.pcs)
    && 0 <= d.idle <= p.workers
    && (d.stopped ==> forall w | 0 <= w < |d.pcs| ::
          d.pcs[w].Top? || d.pcs[w].Wait? || d.pcs[w].Exited? || d.pcs[w].AdvStop?)
    && (!d.stopped ==>
          && (forall w | 0 <= w < |d.pcs| :: !d.pcs[w].Exited? && !d.pcs[w].AdvStop?)
          && (d.idle == p.workers ==> exists w :: 0 <= w < |d.pcs| && Advancing(d.pcs[w])))
  }

  // ---- the log of the current round ----

  /** e may follow log: it is new, a reaction starts after its trigger and after every triggered
      reaction of a lower level is done, and nothing is triggered at or below a started level's floor. */
  ghost predicate Legit(p: Program, log: seq<Event>, e: Event) {
    && e !in log && p.Knows(e.r)
    && match e {
      case Triggered(r) => forall x: nat | Started(x) in log :: p.Knows(x) && p.level[x] <= p.level[r]
      case Started(r) =>
        && Triggered(r) in log
        && forall x: nat | Triggered(x) in log :: p.Knows(x) && (p.level[x] < p.level[r] ==> Finished(x) in log)
      case Finished(r) => Started(r) in log
    }
  }

  ghost predicate Orderly(p: Program, log: seq<Event>) {
    log == [] || (Orderly(p, log[..|log| - 1]) && Legit(p, log[..|log| - 1], log[|log| - 1]))
  }

  ghost predicate Complete(p: Program, log: seq<Event>) {
    Orderly(p, log) && forall r: nat | Triggered(r) in log :: Finished(r) in log
  }

  /** How far a reaction has come in this round, against where it is. */
  ghost predicate Progress(log: seq<Event>, r: Reaction, place: Place, pcs: seq<Pc>) {
    && (Triggered(r) in log <==> place != Nowhere || Finished(r) in log)
    && (place != Nowhere ==> Finished(r) !in log)
    && (Started(r) in log <==>
          Finished(r) in log || (place.Held? && place.w < |pcs| && !pcs[place.w].Got?))
  }

  ghost predicate LogOk(p: Program, log: seq<Event>, at: seq<Place>, pcs: seq<Pc>) {
    && |at| == |p.level|
    && Orderly(p, log)
    && (forall e | e in log :: p.Knows(e.r))
    && (forall r | 0 <= r < |at| :: Progress(log, r, at[r], pcs))
  }

  /** Reactions done in this round are at levels already passed. */
  ghost predicate Floor(p: Program, log: seq<Event>, next: nat, d: Desk) {
    || d.stopped
    || (exists w :: 0 <= w < |d.pcs| && d.pcs[w].AdvTag?)
    || (forall r: nat | Started(r) in log && p.Knows(r) :: p.level[r] < next)
  }

  /** The rounds so far: complete, at tags that never go back, and empty when the tag did not move. */
  ghost predicate PastOk(p: Program, past: seq<Round>) {
    && (forall i | 0 <= i < |past| :: Complete(p, past[i].log))
    && (forall i, j | 0 <= i < j < |past| :: AtMost(past[i].tag, past[j].tag))
    && (forall i, j | 0 <= i < j < |past| && past[i].tag == past[j].tag :: past[j].log == [])
  }

  ghost predicate NowOk(past: seq<Round>, current: Tag, log: seq<Event>, pcs: seq<Pc>) {
    && (forall i | 0 <= i < |past| :: AtMost(past[i].tag, current))
    && ((exists i :: 0 <= i < |past| && past[i].tag == current) ==>
          log == [] && forall w | 0 <= w < |pcs| :: !pcs[w].AdvNext? && !pcs[w].AdvInsert?)
  }

  /** Custody, levels and coordination. */
  ghost predicate Custody(p: Program, s: State, at: seq<Place>) {
    && !s.faulted
    && Rows(p, s.v, at)
    && Hands(p, s.desk.pcs, s.queued, at)
    && Levels(p, s.v, s.desk)
    && Coordination(p, s.desk)
  }

  /** The current round and the past ones. */
  ghost predicate Rounds(p: Program, s: State, at: seq<Place>) {
    && LogOk(p, s.log, at, s.desk.pcs)
    && Floor(p, s.log, s.v.next, s.desk)
    && PastOk(p, s.past)
    && NowOk(s.past, s.clock.current, s.log, s.desk.pcs)
    && (s.desk.stopped ==> AtMost(s.clock.stop, s.clock.current))
  }

  ghost predicate Inv(p: Program, s: State, at: seq<Place>) {
    Custody(p, s, at) && Rounds(p, s, at)
  }

  /** Some assignment of places to reactions satisfies the invariant. */
  ghost predicate Good(p: Program, s: State) { exists at :: Inv(p, s, at) }

  // ---- helpers ----

  lemma {:induction false} SumUpdate(p: Program, pcs: seq<Pc>, w: nat, pc: Pc)
    requires w < |pcs|
    ensures Sum(p, pcs[w := pc]) == Sum(p, pcs) - Weight(p, pcs[w]) + Weight(p, pc)
  {
    if w == 0 {
      assert pcs[w := pc][1..] == pcs[1..];
    } else {
      assert pcs[w := pc][1..] == pcs[1..][w - 1 := pc];
      SumUpdate(p, pcs[1..], w - 1, pc);
    }
  }

  /** Weights are at most one, so a sum of |pcs| - 1 with a weightless worker fixes all others. */
  lemma {:induction false} SumBound(p: Program, pcs: seq<Pc>)
    requires p.workers > 0
    ensures Sum(p, pcs) <= |pcs|
    ensures Sum(p, pcs) == |pcs| ==> forall v | 0 <= v < |pcs| :: Weight(p, pcs[v]) == 1
  {
    if pcs != [] {
      SumBound(p, pcs[1..]);
      if Sum(p, pcs) == |pcs| {
        forall v | 0 <= v < |pcs| ensures Weight(p, pcs[v]) == 1 {
          if v > 0 { assert pcs[v] == pcs[1..][v - 1]; }
        }
      }
    }
  }

  lemma OthersWait(p: Program, pcs: seq<Pc>, w: nat)
    requires p.workers > 0 && w < |pcs| && Weight(p, pcs[w]) == 0
    requires forall v | 0 <= v < |pcs| && v != w :: !Advancing(pcs[v])
    ensures Sum(p, pcs) <= |pcs| - 1
    ensures Sum(p, pcs) == |pcs| - 1 ==> forall v | 0 <= v < |pcs| && v != w :: pcs[v].Wait?
  {
    var full := pcs[w := Wait];
    SumUpdate(p, pcs, w, Wait);
    SumBound(p, full);
    if Sum(p, pcs) == |pcs| - 1 {
      forall v | 0 <= v < |pcs| && v != w ensures pcs[v].Wait? {
        assert Weight(p, full[v]) == 1;
      }
    }
  }

  lemma {:induction false} SetOfDistinct(row: seq<Reaction>, all: set<Reaction>, extra: Reaction)
    requires forall i, j | 0 <= i < j < |row| :: row[i] != row[j]
    requires forall i | 0 <= i < |row| :: row[i] in all
    requires extra in all && extra !in row
    ensures |row| < |all|
  {
    if row != [] {
      var last := row[|row| - 1];
      SetOfDistinct(row[..|row| - 1], all - {last}, extra);
    }
  }

  /** A reaction of the level that is outside the level's vector leaves room in it. */
  lemma Room(p: Program, v: Vectors, at: seq<Place>, r: Reaction)
    requires p.Valid() && Rows(p, v, at)
    requires p.Knows(r) && !at[r].InSlot? && v.indexes[p.level[r]] >= 0
    ensures v.indexes[p.level[r]] < |v.slots[p.level[r]]|
  {
    var l := p.level[r];
    var row := seq(v.indexes[l], (k: nat) requires k < v.indexes[l] => v.slots[l][k].r);
    forall i, j | 0 <= i < j < |row| ensures row[i] != row[j] {
      assert at[row[i]] == InSlot(l, i) && at[row[j]] == InSlot(l, j);
    }
    forall i | 0 <= i < |row| ensures row[i] in p.AtLevel(l) && row[i] != r {
      assert at[row[i]] == InSlot(l, i);
    }
    SetOfDistinct(row, p.AtLevel(l), r);
  }
}
