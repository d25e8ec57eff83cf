/** The global earliest-deadline-first scheduler of core/threaded/scheduler_GEDF_NP.c as a
    protocol under the environment mutex: deadlines lead, and the current level cycles. */
module Gedf {
  type Reaction = nat

  /** index packs the deadline above the 16 bits of the level; edges are the pairs (a, b) where a
      may trigger b; picks says whether the master scheduler's picks are enforced. */
  datatype Program = Program(index: seq<nat>, edges: set<(Reaction, Reaction)>, maxLevel: nat, workers: nat, picks: bool) {
    predicate Knows(r: Reaction) { r < |index| }

    function Level(r: Reaction): nat
      requires Knows(r)
    {
      index[r] % 0x1_0000
    }

    /** Index and level strictly increase along every edge. */
    ghost predicate Valid() {
      && workers > 0
      && forall e | e in edges ::
           Knows(e.0) && Knows(e.1) && index[e.0] < index[e.1] && Level(e.0) < Level(e.1)
    }
  }

  datatype Pc =
    | Sched                               // at the head of the loop of lf_sched_get_ready_reaction
    | Got(r: Reaction)                    // popped r, about to ask the master scheduler
    | Running(r: Reaction)
    | Insert(r: Reaction, s: Reaction)    // r has won the status swap of s, insertion pending
    | Waiting                             // on reaction_q_changed
    | Advancing                           // inside _lf_next_locked
    | Exited

  datatype Event = Triggered(r: Reaction) | Started(r: Reaction) | Finished(r: Reaction)

  datatype State = State(
    queue: set<Reaction>,       // reaction_q
    currentLevel: nat,
    idle: int,
    stopped: bool,
    pcs: seq<Pc>,
    queued: set<Reaction>,      // reactions whose status is queued
    log: seq<Event>,            // the current tag
    past: seq<seq<Event>>)      // the earlier tags

  datatype Choice =
    | Peek(r: Reaction)         // an element of least index
    | Pick(t: Reaction)
    | Trigger(s: Reaction)
    | Commit(first: seq<Reaction>)
    | Stop
    | Plain

  predicate IsLeast(p: Program, q: set<Reaction>, r: Reaction) {
    r in q && p.Knows(r) && forall x | x in q :: p.Knows(x) ==> p.index[r] <= p.index[x]
  }

  function Go(s: State, w: nat, pc: Pc): State
    requires w < |s.pcs|
  {
    s.(pcs := s.pcs[w := pc])
  }

  /** One iteration of the loop of lf_sched_get_ready_reaction with r at the head of the queue. */
  function PeekStep(p: Program, s: State, w: nat, r: Reaction): State
    requires w < |s.pcs| && p.Knows(r)
  {
    if p.Level(r) == s.currentLevel then Go(s, w, Got(r)).(queue := s.queue - {r})
    else if s.idle == p.workers - 1 then
      s.(currentLevel := if s.currentLevel + 1 > p.maxLevel then 0 else s.currentLevel + 1)
    else Go(s, w, Waiting).(idle := s.idle + 1)
  }

  /** The same with an empty queue. */
  function EmptyStep(p: Program, s: State, w: nat): State
    requires w < |s.pcs|
  {
    if s.idle == p.workers - 1 then Go(s, w, Advancing) else Go(s, w, Waiting).(idle := s.idle + 1)
  }

  /** The dispatch, after lf_sched_requeue_current_and_pick_by_key if a pick is enforced. */
  function DispatchStep(p: Program, s: State, w: nat, r: Reaction, c: Choice): State
    requires w < |s.pcs|
  {
    if c.Pick? then Go(s, w, Running(c.t)).(queue := s.queue - {c.t} + {r}, log := s.log + [Started(c.t)])
    else Go(s, w, Running(r)).(log := s.log + [Started(r)])
  }

  function TriggerStep(s: State, w: nat, r: Reaction, t: Reaction): State
    requires w < |s.pcs|
  {
    if t in s.queued then s
    else Go(s, w, Insert(r, t)).(queued := s.queued + {t}, log := s.log + [Triggered(t)])
  }

  /** _lf_sched_advance_tag_locked: stop, or enter a new tag whose events trigger first. */
  function AdvanceStep(s: State, w: nat, c: Choice): State
    requires w < |s.pcs|
  {
    if c.Commit? then
      Go(s, w, Sched).(queue := Elements(c.first), queued := Elements(c.first), currentLevel := 0,
                       past := s.past + [s.log], log := Triggers(c.first))
    else Go(s, w, Exited).(stopped := true)
  }

  function Elements(first: seq<Reaction>): set<Reaction> { set r | r in first }

  function Triggers(first: seq<Reaction>): seq<Event> {
    seq(|first|, i requires 0 <= i < |first| => Triggered(first[i]))
  }

  /** The reactions triggered by the events of a tag; the status swap lets each in once. */
  predicate FirstOk(p: Program, first: seq<Reaction>) {
    (forall r | r in first :: p.Knows(r)) && forall i, j | 0 <= i < j < |first| :: first[i] != first[j]
  }

  predicate Enabled(p: Program, s: State, w: nat, c: Choice) {
    && w < |s.pcs|
    && match s.pcs[w] {
      case Sched => s.stopped || s.queue == {} || (c.Peek? && IsLeast(p, s.queue, c.r))
      case Got(r) =>
        || !c.Pick?
        || (p.picks && !s.stopped && c.t in s.queue && p.Knows(c.t) && p.Level(c.t) == s.currentLevel)
      case Running(r) => c.Plain? || (c.Trigger? && (r, c.s) in p.edges)
      case Insert(_, _) => true
      case Waiting => true
      case Advancing => c.Stop? || (c.Commit? && FirstOk(p, c.first))
      case Exited => false
    }
  }

  function Next(p: Program, s: State, w: nat, c: Choice): State
    requires Enabled(p, s, w, c)
  {
    match s.pcs[w]
    case Sched =>
      if s.stopped then Go(s, w, Exited)
      else if s.queue == {} then EmptyStep(p, s, w)
      else PeekStep(p, s, w, c.r)
    case Got(r) => DispatchStep(p, s, w, r, c)
    case Running(r) =>
      if c.Trigger? then TriggerStep(s, w, r, c.s)
      else Go(s, w, Sched).(queued := s.queued - {r}, log := s.log + [Finished(r)])
    case Insert(r, t) => Go(s, w, Running(r)).(queue := s.queue + {t})
    case Waiting => Go(s, w, Sched).(idle := s.idle - 1)
    case Advancing => AdvanceStep(s, w, c)
    case Exited => s
  }

  function Start(p: Program, first: seq<Reaction>): State {
    State(Elements(first), 0, 0, false, seq(p.workers, _ => Sched), Elements(first), Triggers(first), [])
  }

  datatype Act = Act(w: nat, c: Choice)

  ghost predicate IsRun(p: Program, states: seq<State>, acts: seq<Act>) {
    && |states| == |acts| + 1
    && (exists first: seq<Reaction> :: FirstOk(p, first) && states[0] == Start(p, first))
    && forall i | 0 <= i < |acts| ::
         Enabled(p, states[i], acts[i].w, acts[i].c) && states[i + 1] == Next(p, states[i], acts[i].w, acts[i].c)
  }

  // ---- dependencies ----

  ghost predicate IsPath(p: Program, path: seq<Reaction>) {
    |path| >= 2 && forall i | 0 <= i < |path| - 1 :: (path[i], path[i + 1]) in p.edges
  }

  /** u can trigger, directly or through others, r. */
  ghost predicate Upstream(p: Program, u: Reaction, r: Reaction) {
    exists path: seq<Reaction> :: IsPath(p, path) && path[0] == u && path[|path| - 1] == r
  }

  lemma UpstreamPrepend(p: Program, u: Reaction, v: Reaction, r: Reaction)
    requires (u, v) in p.edges && (v == r || Upstream(p, v, r))
    ensures Upstream(p, u, r)
  {
    if v == r {
      assert IsPath(p, [u, v]);
      assert [u, v][0] == u && [u, v][|[u, v]| - 1] == r;
    } else {
      var path: seq<Reaction> :| IsPath(p, path) && path[0] == v && path[|path| - 1] == r;
      var longer := [u] + path;
      forall i | 0 <= i < |longer| - 1 ensures (longer[i], longer[i + 1]) in p.edges {
        if i > 0 { assert (path[i - 1], path[i]) in p.edges; }
      }
      assert IsPath(p, longer) && longer[0] == u && longer[|longer| - 1] == r;
    }
  }

  lemma UpstreamIsEarlier(p: Program, u: Reaction, r: Reaction)
    requires p.Valid() && Upstream(p, u, r)
    ensures p.Knows(u) && p.Knows(r) && p.index[u] < p.index[r] && p.Level(u) < p.Level(r)
  {
    var path: seq<Reaction> :| IsPath(p, path) && path[0] == u && path[|path| - 1] == r;
    PathIncreases(p, path);
  }

  lemma {:induction false} PathIncreases(p: Program, path: seq<Reaction>)
    requires p.Valid() && IsPath(p, path)
    ensures var u, r := path[0], path[|path| - 1];
      p.Knows(u) && p.Knows(r) && p.index[u] < p.index[r] && p.Level(u) < p.Level(r)
  {
    assert (path[0], path[1]) in p.edges;
    if |path| > 2 {
      var rest := path[1..];
      forall i | 0 <= i < |rest| - 1 ensures (rest[i], rest[i + 1]) in p.edges {
        assert (path[i + 1], path[i + 2]) in p.edges;
      }
      PathIncreases(p, rest);
    }
  }

  // ---- the invariant ----

  predicate Holds(pc: Pc) { pc.Got? || pc.Running? || pc.Insert? }

  predicate InHand(pc: Pc, c: Reaction) {
    (Holds(pc) && pc.r == c) || (pc.Insert? && pc.s == c)
  }

  /** A worker's own reaction is of the current level, and a pending one is a step downstream. */
  ghost predicate HandOk(p: Program, s: State, pc: Pc) {
    && (Holds(pc) ==> p.Knows(pc.r) && p.Level(pc.r) == s.currentLevel)
    && (pc.Insert? ==> (pc.r, pc.s) in p.edges && pc.r != pc.s)
    && (forall c: nat | InHand(pc, c) :: c in s.queued && c !in s.queue)
  }

  ghost predicate Hands(p: Program, s: State) {
    && |s.pcs| == p.workers
    && s.queue <= s.queued
    && (forall c | c in s.queued :: p.Knows(c))
    && (forall w | 0 <= w < |s.pcs| :: HandOk(p, s, s.pcs[w]))
    && (forall w, v, c: nat | 0 <= w < |s.pcs| && 0 <= v < |s.pcs| && InHand(s.pcs[w], c) && InHand(s.pcs[v], c) :: w == v)
    && (forall c | c in s.queued && c !in s.queue :: exists w :: 0 <= w < |s.pcs| && InHand(s.pcs[w], c))
    && (forall w | 0 <= w < |s.pcs| && s.pcs[w].Advancing? ::
          s.queue == {} && !s.stopped && forall v | 0 <= v < |s.pcs| && v != w :: s.pcs[v].Sched? || s.pcs[v].Waiting?)
  }

  ghost function WaitingSet(pcs: seq<Pc>): set<nat> { set w | 0 <= w < |pcs| && pcs[w].Waiting? }

  /** The idle counter is the number of workers on the condition variable, and one is always off it. */
  ghost predicate IdleOk(p: Program, s: State) {
    && s.idle == |WaitingSet(s.pcs)|
    && (s.stopped || s.idle < p.workers)
    && (forall w | 0 <= w < |s.pcs| && s.pcs[w].Exited? :: s.stopped)
  }

  /** e may follow log: it is new, a start follows its trigger and a finish its start, no reaction
      downstream of e's has started, and a reaction starts only when every triggered reaction
      upstream of it is done. */
  ghost predicate Legit(p: Program, log: seq<Event>, e: Event) {
    && e !in log
    && (e.Started? ==> Triggered(e.r) in log) && (e.Finished? ==> Started(e.r) in log)
    && (forall x: nat | Started(x) in log :: !Upstream(p, e.r, x))
    && (e.Started? ==> forall u: nat | Triggered(u) in log && Upstream(p, u, e.r) :: Finished(u) in log)
  }

  ghost predicate Orderly(p: Program, log: seq<Event>) {
    log == [] || (Orderly(p, log[..|log| - 1]) && Legit(p, log[..|log| - 1], log[|log| - 1]))
  }

  /** A tag that is over: orderly, and everything triggered is finished. */
  ghost predicate Complete(p: Program, log: seq<Event>) {
    Orderly(p, log) && forall r: nat | Triggered(r) in log :: Finished(r) in log
  }

  predicate Executes(pc: Pc) { pc.Running? || pc.Insert? }

  /** Some worker is executing r. */
  ghost predicate Executing(pcs: seq<Pc>, r: Reaction) {
    exists w :: 0 <= w < |pcs| && Executes(pcs[w]) && pcs[w].r == r
  }

  /** The status of each reaction against the log: queued between trigger and finish, started when a
      worker executes it. */
  ghost predicate Life(log: seq<Event>, queued: set<Reaction>, pcs: seq<Pc>) {
    && (forall r: nat :: r in queued <==> Triggered(r) in log && Finished(r) !in log)
    && (forall r: nat | r in queued :: Started(r) in log <==> Executing(pcs, r))
  }

  ghost predicate LogOk(p: Program, s: State) {
    && Orderly(p, s.log)
    && (forall i | 0 <= i < |s.past| :: Complete(p, s.past[i]))
    && Life(s.log, s.queued, s.pcs)
    && StartedClear(p, s)
    && (forall w | 0 <= w < |s.pcs| && s.pcs[w].Got? :: Clear(p, s.queued, s.pcs[w].r))
  }

  /** No reaction in custody is upstream of r. */
  ghost predicate Clear(p: Program, queued: set<Reaction>, r: Reaction) {
    forall c | c in queued :: !Upstream(p, c, r)
  }

  /** No reaction that has started at this tag has anything upstream of it left. */
  ghost predicate StartedClear(p: Program, s: State) {
    forall x: nat | Started(x) in s.log :: Clear(p, s.queued, x)
  }

  // ---- the idle counter ----

  lemma WaitingUpdate(pcs: seq<Pc>, w: nat, pc: Pc)
    requires w < |pcs|
    ensures |WaitingSet(pcs[w := pc])| == |WaitingSet(pcs)| - (if pcs[w].Waiting? then 1 else 0) + (if pc.Waiting? then 1 else 0)
  {
    var before, after := WaitingSet(pcs), WaitingSet(pcs[w := pc]);
    assert after - {w} == before - {w};
    Without(before, w);
    Without(after, w);
  }

  lemma Without(a: set<nat>, w: nat)
    ensures |a| == |a - {w}| + if w in a then 1 else 0
  {
    if w !in a { assert a - {w} == a; }
  }

  lemma {:induction false} SetBelow(a: set<nat>, n: nat)
    requires forall x | x in a :: x < n
    ensures |a| <= n
    ensures |a| == n ==> forall x | 0 <= x < n :: x in a
  {
    if n > 0 {
      SetBelow(a - {n - 1}, n - 1);
      if |a| == n {
        assert n - 1 in a;
        forall x | 0 <= x < n ensures x in a {
          if x < n - 1 { assert x in a - {n - 1}; }
        }
      }
    } else {
      assert a == {};
    }
  }

  /** All but one on the condition variable: the one left is w, and every other worker waits. */
  lemma LastOne(p: Program, s: State, w: nat)
    requires w < |s.pcs| == p.workers && !s.pcs[w].Waiting? && s.idle == |WaitingSet(s.pcs)|
    ensures s.idle < p.workers
    ensures s.idle == p.workers - 1 ==> forall v | 0 <= v < |s.pcs| && v != w :: s.pcs[v].Waiting?
  {
    var all := WaitingSet(s.pcs) + {w};
    SetBelow(all, p.workers);
    assert |all| == s.idle + 1;
    if s.idle == p.workers - 1 {
      forall v | 0 <= v < |s.pcs| && v != w ensures s.pcs[v].Waiting? { assert v in all; }
    }
  }

  /** One worker moves, and the counter with it. */
  lemma IdleMove(p: Program, s: State, w: nat, s': State)
    requires |s.pcs| == p.workers && w < |s.pcs| && IdleOk(p, s)
    requires |s'.pcs| == |s.pcs| && s'.pcs == s.pcs[w := s'.pcs[w]]
    requires s'.idle == s.idle - (if s.pcs[w].Waiting? then 1 else 0) + (if s'.pcs[w].Waiting? then 1 else 0)
    requires (s.stopped ==> s'.stopped) && (s'.pcs[w].Exited? ==> s'.stopped) && (s'.stopped || s'.idle < p.workers)
    ensures IdleOk(p, s')
  {
    WaitingUpdate(s.pcs, w, s'.pcs[w]);
  }

  lemma IdleStep(p: Program, s: State, w: nat, c: Choice)
    requires p.workers > 0 && |s.pcs| == p.workers && Enabled(p, s, w, c) && IdleOk(p, s)
    ensures IdleOk(p, Next(p, s, w, c))
  {
    if !s.pcs[w].Waiting? { assert s.idle < p.workers by { LastOne(p, s, w); } }
    IdleMove(p, s, w, Next(p, s, w, c));
  }

  // ---- hands ----

  lemma HandsPeek(p: Program, s: State, w: nat, r: Reaction)
    requires Hands(p, s) && IdleOk(p, s) && p.workers > 0 && w < |s.pcs| && s.pcs[w].Sched?
    requires IsLeast(p, s.queue, r)
    ensures Hands(p, PeekStep(p, s, w, r))
  {
    var s' := PeekStep(p, s, w, r);
    if p.Level(r) == s.currentLevel {
      forall c | c in s'.queued && c !in s'.queue ensures exists v :: 0 <= v < |s'.pcs| && InHand(s'.pcs[v], c) {
        if c == r {
          assert InHand(s'.pcs[w], c);
        } else {
          var v :| 0 <= v < |s.pcs| && InHand(s.pcs[v], c);
          assert InHand(s'.pcs[v], c);
        }
      }
    } else {
      LastOne(p, s, w);
      HandsSame(p, s, w, s');
    }
  }

  /** No queue or status changes and w's hand stays empty. */
  lemma HandsSame(p: Program, s: State, w: nat, s': State)
    requires Hands(p, s) && w < |s.pcs| && w < |s'.pcs| && s'.pcs == s.pcs[w := s'.pcs[w]]
    requires forall c: nat :: !InHand(s.pcs[w], c) && !InHand(s'.pcs[w], c)
    requires s'.queue == s.queue && s'.queued == s.queued
    requires s'.currentLevel == s.currentLevel || forall v | 0 <= v < |s.pcs| && v != w :: s.pcs[v].Waiting?
    requires s'.pcs[w].Sched? || s'.pcs[w].Waiting? || s'.pcs[w].Exited?
      || (s'.pcs[w].Advancing? && s.queue == {} && forall v | 0 <= v < |s.pcs| && v != w :: s.pcs[v].Waiting?)
    requires s'.stopped == s.stopped && (s'.pcs[w].Exited? || s'.pcs[w].Advancing? ==> s.stopped == s'.pcs[w].Exited?)
    ensures Hands(p, s')
  {
    forall c | c in s'.queued && c !in s'.queue ensures exists v :: 0 <= v < |s'.pcs| && InHand(s'.pcs[v], c) {
      var v :| 0 <= v < |s.pcs| && InHand(s.pcs[v], c);
      assert InHand(s'.pcs[v], c);
    }
  }

  lemma HandsDispatch(p: Program, s: State, w: nat, c: Choice)
    requires Hands(p, s) && Enabled(p, s, w, c) && s.pcs[w].Got?
    ensures Hands(p, DispatchStep(p, s, w, s.pcs[w].r, c))
  {
    var s' := DispatchStep(p, s, w, s.pcs[w].r, c);
    assert HandOk(p, s, s.pcs[w]) && InHand(s.pcs[w], s.pcs[w].r);
    forall v | 0 <= v < |s.pcs| && v != w && Holds(s.pcs[v]) ensures s.pcs[v].r != s.pcs[w].r {
      assert InHand(s.pcs[v], s.pcs[v].r);
    }
    forall x | x in s'.queued && x !in s'.queue ensures exists v :: 0 <= v < |s'.pcs| && InHand(s'.pcs[v], x) {
      if InHand(s'.pcs[w], x) {
      } else {
        var v :| 0 <= v < |s.pcs| && InHand(s.pcs[v], x);
        assert InHand(s'.pcs[v], x);
      }
    }
    forall v | 0 <= v < |s'.pcs| ensures HandOk(p, s', s'.pcs[v]) {
      assert HandOk(p, s, s.pcs[v]);
    }
  }

  lemma HandsTrigger(p: Program, s: State, w: nat, t: Reaction)
    requires p.Valid() && Hands(p, s) && w < |s.pcs| && s.pcs[w].Running? && (s.pcs[w].r, t) in p.edges
    ensures Hands(p, TriggerStep(s, w, s.pcs[w].r, t))
  {
    var s' := TriggerStep(s, w, s.pcs[w].r, t);
    assert HandOk(p, s, s.pcs[w]) && InHand(s.pcs[w], s.pcs[w].r);
    if t !in s.queued {
      forall x | x in s'.queued && x !in s'.queue ensures exists v :: 0 <= v < |s'.pcs| && InHand(s'.pcs[v], x) {
        if x == t {
          assert InHand(s'.pcs[w], x);
        } else {
          var v :| 0 <= v < |s.pcs| && InHand(s.pcs[v], x);
          assert InHand(s'.pcs[v], x);
        }
      }
      forall v | 0 <= v < |s'.pcs| ensures HandOk(p, s', s'.pcs[v]) {
        assert HandOk(p, s, s.pcs[v]);
      }
    }
  }

  lemma HandsInsert(p: Program, s: State, w: nat)
    requires Hands(p, s) && w < |s.pcs| && s.pcs[w].Insert?
    ensures Hands(p, Go(s, w, Running(s.pcs[w].r)).(queue := s.queue + {s.pcs[w].s}))
  {
    var s' := Go(s, w, Running(s.pcs[w].r)).(queue := s.queue + {s.pcs[w].s});
    assert HandOk(p, s, s.pcs[w]) && InHand(s.pcs[w], s.pcs[w].r) && InHand(s.pcs[w], s.pcs[w].s);
    forall x | x in s'.queued && x !in s'.queue ensures exists v :: 0 <= v < |s'.pcs| && InHand(s'.pcs[v], x) {
      var v :| 0 <= v < |s.pcs| && InHand(s.pcs[v], x);
      assert InHand(s'.pcs[v], x);
    }
    forall v | 0 <= v < |s'.pcs| ensures HandOk(p, s', s'.pcs[v]) {
      assert HandOk(p, s, s.pcs[v]);
    }
  }

  lemma HandsFinish(p: Program, s: State, w: nat, s': State)
    requires Hands(p, s) && w < |s.pcs| && s.pcs[w].Running?
    requires s'.queue == s.queue && s'.currentLevel == s.currentLevel && s'.stopped == s.stopped
    requires s'.queued == s.queued - {s.pcs[w].r} && s'.pcs == s.pcs[w := Sched]
    ensures Hands(p, s')
  {
    assert HandOk(p, s, s.pcs[w]) && InHand(s.pcs[w], s.pcs[w].r);
    assert forall v, x: nat | 0 <= v < |s'.pcs| && InHand(s'.pcs[v], x) :: v != w && InHand(s.pcs[v], x);
    forall x | x in s'.queued && x !in s'.queue ensures exists v :: 0 <= v < |s'.pcs| && InHand(s'.pcs[v], x) {
      var v :| 0 <= v < |s.pcs| && InHand(s.pcs[v], x);
      assert InHand(s'.pcs[v], x);
    }
    forall v | 0 <= v < |s'.pcs| ensures HandOk(p, s', s'.pcs[v]) {
      assert HandOk(p, s, s.pcs[v]);
    }
  }

  /** While a worker advances, no reaction is queued, in hand or pending. */
  lemma NothingLeft(p: Program, s: State, w: nat)
    requires Hands(p, s) && w < |s.pcs| && s.pcs[w].Advancing?
    ensures s.queued == {}
  {
    assert forall v, x: nat | 0 <= v < |s.pcs| :: !InHand(s.pcs[v], x);
  }

  lemma HandsAdvance(p: Program, s: State, w: nat, c: Choice)
    requires Hands(p, s) && Enabled(p, s, w, c) && s.pcs[w].Advancing?
    ensures Hands(p, AdvanceStep(s, w, c))
  {
    NothingLeft(p, s, w);
    assert forall v, x: nat | 0 <= v < |s.pcs| :: !InHand(s.pcs[v], x);
  }

  lemma HandsStep(p: Program, s: State, w: nat, c: Choice)
    requires p.Valid() && Hands(p, s) && IdleOk(p, s) && Enabled(p, s, w, c)
    ensures Hands(p, Next(p, s, w, c))
  {
    match s.pcs[w]
    case Sched =>
      if s.stopped {
        HandsSame(p, s, w, Go(s, w, Exited));
      } else if s.queue == {} {
        LastOne(p, s, w);
        HandsSame(p, s, w, EmptyStep(p, s, w));
      } else {
        HandsPeek(p, s, w, c.r);
      }
    case Got(r) => HandsDispatch(p, s, w, c);
    case Running(r) =>
      if c.Trigger? {
        HandsTrigger(p, s, w, c.s);
      } else {
        HandsFinish(p, s, w, Next(p, s, w, c));
      }
    case Insert(r, t) => HandsInsert(p, s, w);
    case Waiting => HandsSame(p, s, w, Go(s, w, Sched).(idle := s.idle - 1));
    case Advancing => HandsAdvance(p, s, w, c);
  }

  // ---- the log ----

  lemma OrderlyAppend(p: Program, log: seq<Event>, e: Event)
    requires Orderly(p, log) && Legit(p, log, e)
    ensures Orderly(p, log + [e])
    ensures forall x :: x in log + [e] <==> x in log || x == e
  {
    assert (log + [e])[..|log|] == log;
  }

  /** In an orderly log a start has its trigger and a finish its start. */
  lemma {:induction false} OrderlyIsCausal(p: Program, log: seq<Event>, r: Reaction)
    requires Orderly(p, log)
    ensures (Started(r) in log ==> Triggered(r) in log) && (Finished(r) in log ==> Started(r) in log)
  {
    if log != [] {
      var init, e := log[..|log| - 1], log[|log| - 1];
      OrderlyIsCausal(p, init, r);
      assert log == init + [e];
    }
  }

  lemma {:induction false} OrderlyTriggers(p: Program, first: seq<Reaction>)
    requires FirstOk(p, first)
    ensures Orderly(p, Triggers(first))
    ensures forall e | e in Triggers(first) :: e.Triggered? && e.r in first
    ensures forall r: nat :: r in Elements(first) <==> Triggered(r) in Triggers(first)
  {
    if first != [] {
      var rest, r := first[..|first| - 1], first[|first| - 1];
      assert FirstOk(p, rest) && r !in rest;
      OrderlyTriggers(p, rest);
      assert Triggers(first) == Triggers(rest) + [Triggered(r)] && first == rest + [r];
      assert Triggers(first)[..|first| - 1] == Triggers(rest);
    }
  }

  // ---- the life of a reaction ----

  /** Exactly how one worker's move changes who is executed. */
  lemma ExecutingIs(pcs: seq<Pc>, w: nat, pc: Pc, x: Reaction)
    requires w < |pcs| && forall v | 0 <= v < |pcs| && v != w && Executes(pcs[v]) && Executes(pcs[w]) :: pcs[v].r != pcs[w].r
    ensures Executing(pcs[w := pc], x) <==>
            (Executes(pc) && pc.r == x) || (Executing(pcs, x) && !(Executes(pcs[w]) && pcs[w].r == x))
  {
    var pcs' := pcs[w := pc];
    if v :| 0 <= v < |pcs| && Executes(pcs[v]) && pcs[v].r == x {
      if v != w { assert pcs'[v] == pcs[v]; }
    }
    if v :| 0 <= v < |pcs'| && Executes(pcs'[v]) && pcs'[v].r == x {
      if v != w { assert pcs[v] == pcs'[v]; }
    }
    if Executes(pc) && pc.r == x { assert pcs'[w] == pc; }
  }

  lemma ExecutingAll(p: Program, s: State, w: nat, pc: Pc)
    requires Hands(p, s) && w < |s.pcs|
    ensures forall x: nat :: Executing(s.pcs[w := pc], x) <==>
            (Executes(pc) && pc.r == x) || (Executing(s.pcs, x) && !(Executes(s.pcs[w]) && s.pcs[w].r == x))
  {
    forall v | 0 <= v < |s.pcs| && v != w && Executes(s.pcs[v]) && Executes(s.pcs[w]) ensures s.pcs[v].r != s.pcs[w].r {
      assert InHand(s.pcs[v], s.pcs[v].r) && InHand(s.pcs[w], s.pcs[w].r);
    }
    forall x: nat ensures Executing(s.pcs[w := pc], x) <==>
            (Executes(pc) && pc.r == x) || (Executing(s.pcs, x) && !(Executes(s.pcs[w]) && s.pcs[w].r == x))
    {
      ExecutingIs(s.pcs, w, pc, x);
    }
  }

  /** A queued reaction in no executing hand is not executed. */
  lemma NotExecuted(p: Program, s: State, r: Reaction)
    requires Hands(p, s) && (r in s.queue || exists w :: 0 <= w < |s.pcs| && s.pcs[w].Got? && s.pcs[w].r == r)
    ensures !Executing(s.pcs, r)
  {
    forall v | 0 <= v < |s.pcs| && Executes(s.pcs[v]) ensures s.pcs[v].r != r {
      assert InHand(s.pcs[v], s.pcs[v].r) && HandOk(p, s, s.pcs[v]);
      if w :| 0 <= w < |s.pcs| && s.pcs[w].Got? && s.pcs[w].r == r { assert InHand(s.pcs[w], r); }
    }
  }

  // ---- steps ----

  /** The head of the queue at the current level has nothing upstream of it in custody. */
  lemma LeastIsClear(p: Program, s: State, r: Reaction)
    requires p.Valid() && Hands(p, s) && IsLeast(p, s.queue, r) && p.Level(r) == s.currentLevel
    ensures Clear(p, s.queued, r)
  {
    forall c | c in s.queued ensures !Upstream(p, c, r) {
      if c !in s.queue {
        var v :| 0 <= v < |s.pcs| && InHand(s.pcs[v], c);
        assert HandOk(p, s, s.pcs[v]);
      }
      if Upstream(p, c, r) { UpstreamIsEarlier(p, c, r); }
    }
  }

  /** No queued reaction of a lower level is upstream of t. */
  ghost predicate ClearPick(p: Program, s: State, t: Reaction) {
    forall u | u in s.queue && p.Knows(u) && p.Level(u) < s.currentLevel :: !Upstream(p, u, t)
  }

  /** The worker dispatches a pick that is not clear. */
  ghost predicate BadPick(p: Program, s: State, a: Act) {
    a.w < |s.pcs| && s.pcs[a.w].Got? && a.c.Pick? && !ClearPick(p, s, a.c.t)
  }

  /** At the current level only queued reactions of lower levels can be upstream. */
  lemma PickIsClear(p: Program, s: State, t: Reaction)
    requires p.Valid() && Hands(p, s) && p.Knows(t) && p.Level(t) == s.currentLevel && ClearPick(p, s, t)
    ensures Clear(p, s.queued, t)
  {
    forall c | c in s.queued ensures !Upstream(p, c, t) {
      if c !in s.queue {
        var v :| 0 <= v < |s.pcs| && InHand(s.pcs[v], c);
        assert HandOk(p, s, s.pcs[v]);
      }
      if Upstream(p, c, t) { UpstreamIsEarlier(p, c, t); }
    }
  }

  /** A trigger cannot reach back: what runs is clear of everything already started. */
  lemma TriggerStaysClear(p: Program, queued: set<Reaction>, y: Reaction, t: Reaction, x: Reaction)
    requires (y, t) in p.edges && y in queued && Clear(p, queued, x)
    ensures Clear(p, queued + {t}, x) && !Upstream(p, t, x)
  {
    if Upstream(p, t, x) { UpstreamPrepend(p, y, t, x); }
  }

  /** A step that leaves log and statuses alone, and executions too. */
  lemma LogSame(p: Program, s: State, w: nat, s': State)
    requires Hands(p, s) && LogOk(p, s) && w < |s.pcs|
    requires s'.log == s.log && s'.past == s.past && s'.queued == s.queued
    requires |s'.pcs| == |s.pcs| && s'.pcs == s.pcs[w := s'.pcs[w]]
    requires Executes(s.pcs[w]) == Executes(s'.pcs[w]) && (Executes(s.pcs[w]) ==> s'.pcs[w].r == s.pcs[w].r)
    requires s'.pcs[w].Got? ==> Clear(p, s.queued, s'.pcs[w].r)
    ensures LogOk(p, s')
  {
    ExecutingAll(p, s, w, s'.pcs[w]);
  }

  /** A worker starts t: its own reaction, or a clear pick from the queue. */
  lemma LogStart(p: Program, s: State, w: nat, t: Reaction, s': State)
    requires Hands(p, s) && LogOk(p, s) && w < |s.pcs| && s.pcs[w].Got? && t in s.queued && Clear(p, s.queued, t)
    requires s.pcs[w].r == t || t in s.queue
    requires s'.log == s.log + [Started(t)] && s'.past == s.past && s'.queued == s.queued && s'.pcs == s.pcs[w := Running(t)]
    ensures LogOk(p, s')
  {
    NotExecuted(p, s, t);
    ExecutingAll(p, s, w, Running(t));
    OrderlyAppend(p, s.log, Started(t));
  }

  lemma LogDispatch(p: Program, s: State, w: nat, c: Choice)
    requires p.Valid() && Hands(p, s) && LogOk(p, s) && Enabled(p, s, w, c) && s.pcs[w].Got? && !BadPick(p, s, Act(w, c))
    ensures LogOk(p, DispatchStep(p, s, w, s.pcs[w].r, c))
  {
    assert InHand(s.pcs[w], s.pcs[w].r) && HandOk(p, s, s.pcs[w]);
    if c.Pick? {
      PickIsClear(p, s, c.t);
      LogStart(p, s, w, c.t, DispatchStep(p, s, w, s.pcs[w].r, c));
    } else {
      LogStart(p, s, w, s.pcs[w].r, DispatchStep(p, s, w, s.pcs[w].r, c));
    }
  }

  /** A reaction that is not queued has not been triggered at this tag, if a running one may trigger it. */
  lemma NotYetTriggered(p: Program, s: State, y: Reaction, t: Reaction)
    requires LogOk(p, s) && (y, t) in p.edges && y in s.queued && t !in s.queued
    ensures Triggered(t) !in s.log && Started(t) !in s.log && Finished(t) !in s.log
  {
    OrderlyIsCausal(p, s.log, t);
    UpstreamPrepend(p, y, t, t);
    assert !Clear(p, s.queued, t);
  }

  lemma LogTrigger(p: Program, s: State, w: nat, t: Reaction)
    requires Hands(p, s) && LogOk(p, s) && w < |s.pcs| && s.pcs[w].Running? && (s.pcs[w].r, t) in p.edges && t !in s.queued
    ensures LogOk(p, TriggerStep(s, w, s.pcs[w].r, t))
  {
    var y := s.pcs[w].r;
    assert InHand(s.pcs[w], y) && HandOk(p, s, s.pcs[w]);
    var s' := TriggerStep(s, w, y, t);
    NotYetTriggered(p, s, y, t);
    forall x: nat | Started(x) in s.log ensures !Upstream(p, t, x) && Clear(p, s'.queued, x) {
      TriggerStaysClear(p, s.queued, y, t, x);
    }
    forall v | 0 <= v < |s'.pcs| && s'.pcs[v].Got? ensures Clear(p, s'.queued, s'.pcs[v].r) {
      TriggerStaysClear(p, s.queued, y, t, s.pcs[v].r);
    }
    OrderlyAppend(p, s.log, Triggered(t));
    TriggerLife(p, s, w, t);
  }

  lemma TriggerLife(p: Program, s: State, w: nat, t: Reaction)
    requires Hands(p, s) && Life(s.log, s.queued, s.pcs) && w < |s.pcs| && s.pcs[w].Running? && t !in s.queued
    requires Triggered(t) !in s.log && Started(t) !in s.log && Finished(t) !in s.log
    ensures Life(s.log + [Triggered(t)], s.queued + {t}, s.pcs[w := Insert(s.pcs[w].r, t)])
  {
    ExecutingAll(p, s, w, Insert(s.pcs[w].r, t));
    assert !Executing(s.pcs, t) by {
      forall v | 0 <= v < |s.pcs| && Executes(s.pcs[v]) ensures s.pcs[v].r != t {
        assert InHand(s.pcs[v], s.pcs[v].r) && HandOk(p, s, s.pcs[v]);
      }
    }
    assert InHand(s.pcs[w], s.pcs[w].r) && HandOk(p, s, s.pcs[w]);
  }

  lemma LogFinish(p: Program, s: State, w: nat, s': State)
    requires Hands(p, s) && LogOk(p, s) && w < |s.pcs| && s.pcs[w].Running?
    requires s'.queued == s.queued - {s.pcs[w].r} && s'.pcs == s.pcs[w := Sched] && s'.past == s.past
    requires s'.log == s.log + [Finished(s.pcs[w].r)]
    ensures LogOk(p, s')
  {
    var r := s.pcs[w].r;
    assert InHand(s.pcs[w], r) && HandOk(p, s, s.pcs[w]);
    assert Executing(s.pcs, r);
    forall x: nat | Started(x) in s.log ensures !Upstream(p, r, x) { assert Clear(p, s.queued, x); }
    OrderlyAppend(p, s.log, Finished(r));
    FinishLife(p, s, w);
  }

  lemma FinishLife(p: Program, s: State, w: nat)
    requires Hands(p, s) && Life(s.log, s.queued, s.pcs) && w < |s.pcs| && s.pcs[w].Running?
    ensures Life(s.log + [Finished(s.pcs[w].r)], s.queued - {s.pcs[w].r}, s.pcs[w := Sched])
  {
    ExecutingAll(p, s, w, Sched);
  }

  lemma LogAdvance(p: Program, s: State, w: nat, c: Choice)
    requires Hands(p, s) && LogOk(p, s) && Enabled(p, s, w, c) && s.pcs[w].Advancing?
    ensures LogOk(p, AdvanceStep(s, w, c))
  {
    NothingLeft(p, s, w);
    var s' := AdvanceStep(s, w, c);
    if c.Commit? {
      OrderlyTriggers(p, c.first);
      assert forall v | 0 <= v < |s'.pcs| :: !s'.pcs[v].Got? && !Executes(s'.pcs[v]);
    } else {
      LogSame(p, s, w, s');
    }
  }

  lemma LogPeek(p: Program, s: State, w: nat, r: Reaction)
    requires p.Valid() && Hands(p, s) && LogOk(p, s) && w < |s.pcs| && s.pcs[w].Sched? && IsLeast(p, s.queue, r)
    ensures LogOk(p, PeekStep(p, s, w, r))
  {
    if p.Level(r) == s.currentLevel { LeastIsClear(p, s, r); }
    LogSame(p, s, w, PeekStep(p, s, w, r));
  }

  lemma LogStep(p: Program, s: State, w: nat, c: Choice)
    requires p.Valid() && Hands(p, s) && LogOk(p, s) && Enabled(p, s, w, c) && !BadPick(p, s, Act(w, c))
    ensures LogOk(p, Next(p, s, w, c))
  {
    match s.pcs[w]
    case Sched => if !s.stopped && s.queue != {} { LogPeek(p, s, w, c.r); } else { LogSame(p, s, w, Next(p, s, w, c)); }
    case Got(r) => LogDispatch(p, s, w, c);
    case Running(r) =>
      if c.Trigger? {
        if c.s !in s.queued { LogTrigger(p, s, w, c.s); }
      } else {
        LogFinish(p, s, w, Next(p, s, w, c));
      }
    case Insert(r, t) => LogSame(p, s, w, Next(p, s, w, c));
    case Waiting => LogSame(p, s, w, Next(p, s, w, c));
    case Advancing => LogAdvance(p, s, w, c);
  }

  // ---- runs ----

  lemma StartKeeps(p: Program, first: seq<Reaction>)
    requires p.Valid() && FirstOk(p, first)
    ensures Hands(p, Start(p, first)) && IdleOk(p, Start(p, first)) && LogOk(p, Start(p, first))
  {
    var s := Start(p, first);
    assert WaitingSet(s.pcs) == {};
    OrderlyTriggers(p, first);
  }

  /** None of the first n steps dispatched a pick that was not clear. */
  ghost predicate NoBadPick(p: Program, states: seq<State>, acts: seq<Act>, n: nat)
    requires n <= |acts| && n <= |states|
  {
    forall i | 0 <= i < n :: !BadPick(p, states[i], acts[i])
  }

  lemma {:induction false} RunKeeps(p: Program, states: seq<State>, acts: seq<Act>, n: nat)
    requires p.Valid() && IsRun(p, states, acts) && n < |states|
    ensures Hands(p, states[n]) && IdleOk(p, states[n])
    ensures NoBadPick(p, states, acts, n) ==> LogOk(p, states[n])
  {
    if n == 0 {
      var first: seq<Reaction> :| FirstOk(p, first) && states[0] == Start(p, first);
      StartKeeps(p, first);
    } else {
      RunKeeps(p, states, acts, n - 1);
      var s, a := states[n - 1], acts[n - 1];
      HandsStep(p, s, a.w, a.c);
      IdleStep(p, s, a.w, a.c);
      if NoBadPick(p, states, acts, n) {
        assert !BadPick(p, s, a);
        LogStep(p, s, a.w, a.c);
      }
    }
  }

  /** Every event of a reaction upstream of r comes before r starts, and if it was triggered it is done. */
  ghost predicate Precedence(p: Program, log: seq<Event>) {
    && (forall i, j | 0 <= i < |log| && 0 <= j < |log| && log[i].Started? && Upstream(p, log[j].r, log[i].r) :: j < i)
    && (forall i, u: nat | 0 <= i < |log| && log[i].Started? && Triggered(u) in log && Upstream(p, u, log[i].r) ::
          Finished(u) in log[..i])
  }

  lemma {:induction false} OrderlyMeans(p: Program, log: seq<Event>)
    requires p.Valid() && Orderly(p, log)
    ensures Precedence(p, log)
  {
    if log != [] {
      var init, e := log[..|log| - 1], log[|log| - 1];
      OrderlyMeans(p, init);
      OrderlyLast(p, init, e);
      assert log == init + [e];
    }
  }

  lemma OrderlyLast(p: Program, init: seq<Event>, e: Event)
    requires p.Valid() && Precedence(p, init) && Legit(p, init, e)
    ensures Precedence(p, init + [e])
  {
    var log := init + [e];
    assert forall i | 0 <= i <= |init| :: log[..i] == init[..i];
    assert init[..|init|] == init;
    forall i, j | 0 <= i < |log| && 0 <= j < |log| && log[i].Started? && Upstream(p, log[j].r, log[i].r) ensures j < i {
      UpstreamIsEarlier(p, log[j].r, log[i].r);
      if i < |init| { assert log[i] == init[i] && log[i] == Started(log[i].r); }
    }
    forall i, u: nat | 0 <= i < |log| && log[i].Started? && Triggered(u) in log && Upstream(p, u, log[i].r)
      ensures Finished(u) in log[..i]
    {
      var j :| 0 <= j < |log| && log[j] == Triggered(u);
      assert j < i;
      assert Triggered(u) in init;
    }
  }

  // ---- the theorems ----

  /** No event twice. */
  ghost predicate NoRepeat(log: seq<Event>) { forall i, j | 0 <= i < j < |log| :: log[i] != log[j] }

  lemma {:induction false} OrderlyNoRepeat(p: Program, log: seq<Event>)
    requires Orderly(p, log)
    ensures NoRepeat(log)
  {
    if log != [] {
      var init, e := log[..|log| - 1], log[|log| - 1];
      OrderlyNoRepeat(p, init);
      assert log == init + [e];
    }
  }

  lemma NoPicks(p: Program, states: seq<State>, acts: seq<Act>, n: nat)
    requires !p.picks && IsRun(p, states, acts) && n < |states|
    ensures NoBadPick(p, states, acts, n)
  {
  }

  /** With picks disabled, or with clear picks only: in every interleaving, when a worker starts r no
      upstream reaction of r is queued, running or will be triggered at that tag, although the level
      cycles; in this tag and in every tag before. */
  lemma UpstreamIsDone(p: Program, states: seq<State>, acts: seq<Act>, n: nat, k: nat)
    requires p.Valid() && IsRun(p, states, acts) && n < |states| && k <= |states[n].past|
    requires !p.picks || NoBadPick(p, states, acts, n)
    ensures Precedence(p, if k < |states[n].past| then states[n].past[k] else states[n].log)
    ensures StartedClear(p, states[n])
  {
    if !p.picks { NoPicks(p, states, acts, n); }
    RunKeeps(p, states, acts, n);
    assert Orderly(p, if k < |states[n].past| then states[n].past[k] else states[n].log) by {
      if k < |states[n].past| { assert Complete(p, states[n].past[k]); }
    }
    OrderlyMeans(p, if k < |states[n].past| then states[n].past[k] else states[n].log);
  }

  /** Under the same condition every reaction triggered at a tag that is over was started and finished
      there, exactly once, and none was started untriggered. */
  lemma EveryTriggerIsServed(p: Program, states: seq<State>, acts: seq<Act>, n: nat, k: nat, r: Reaction)
    requires p.Valid() && IsRun(p, states, acts) && n < |states| && k < |states[n].past|
    requires !p.picks || NoBadPick(p, states, acts, n)
    ensures var log := states[n].past[k];
      && NoRepeat(log)
      && (Triggered(r) in log <==> Started(r) in log)
      && (Triggered(r) in log <==> Finished(r) in log)
  {
    if !p.picks { NoPicks(p, states, acts, n); }
    RunKeeps(p, states, acts, n);
    assert Complete(p, states[n].past[k]);
    OrderlyNoRepeat(p, states[n].past[k]);
    OrderlyIsCausal(p, states[n].past[k], r);
  }

  // ---- exactly when precedence is kept ----

  /** The first pick that is not clear starts its reaction while an upstream one waits in the queue. */
  lemma BadPickBreaks(p: Program, states: seq<State>, acts: seq<Act>, i: nat)
    requires p.Valid() && IsRun(p, states, acts) && i < |acts|
    requires NoBadPick(p, states, acts, i) && BadPick(p, states[i], acts[i])
    ensures !Precedence(p, states[i + 1].log) && !StartedClear(p, states[i + 1])
  {
    RunKeeps(p, states, acts, i);
    var s, s', t := states[i], states[i + 1], acts[i].c.t;
    assert s' == Next(p, s, acts[i].w, acts[i].c);
    var u :| u in s.queue && p.Knows(u) && p.Level(u) < s.currentLevel && Upstream(p, u, t);
    assert u in s'.queued && s'.log[|s.log|] == Started(t);
    assert !Clear(p, s'.queued, t);
    assert Triggered(u) in s.log && Finished(u) !in s.log;
    assert Triggered(u) in s'.log && s'.log[..|s.log|] == s.log;
  }

  lemma {:induction false} FirstBadPick(p: Program, states: seq<State>, acts: seq<Act>, n: nat) returns (i: nat)
    requires n <= |acts| && n <= |states| && !NoBadPick(p, states, acts, n)
    ensures i < n && NoBadPick(p, states, acts, i) && BadPick(p, states[i], acts[i])
  {
    if NoBadPick(p, states, acts, n - 1) {
      i := n - 1;
    } else {
      i := FirstBadPick(p, states, acts, n - 1);
    }
  }

  /** Over any run with picks: precedence holds in every state so far, and every started reaction is
      clear of what is left, exactly when no pick so far was taken while a queued reaction of a lower
      level was upstream of it. */
  lemma PrecedenceIff(p: Program, states: seq<State>, acts: seq<Act>, n: nat)
    requires p.Valid() && IsRun(p, states, acts) && n < |states|
    ensures (forall i | 0 <= i <= n :: Precedence(p, states[i].log)) <==> NoBadPick(p, states, acts, n)
    ensures (forall i | 0 <= i <= n :: StartedClear(p, states[i])) <==> NoBadPick(p, states, acts, n)
  {
    if NoBadPick(p, states, acts, n) {
      forall i | 0 <= i <= n ensures Precedence(p, states[i].log) && StartedClear(p, states[i]) {
        UpstreamIsDone(p, states, acts, i, |states[i].past|);
      }
    } else {
      var i := FirstBadPick(p, states, acts, n);
      BadPickBreaks(p, states, acts, i);
    }
  }

  /** With or without picks: all reactions in hand are of the current level, and distinct. */
  lemma RunningShareTheLevel(p: Program, states: seq<State>, acts: seq<Act>, n: nat, w: nat)
    requires p.Valid() && IsRun(p, states, acts) && n < |states| && w < |states[n].pcs|
    requires Holds(states[n].pcs[w])
    ensures p.Knows(states[n].pcs[w].r) && p.Level(states[n].pcs[w].r) == states[n].currentLevel
    ensures forall v | 0 <= v < |states[n].pcs| && v != w && Holds(states[n].pcs[v]) :: states[n].pcs[v].r != states[n].pcs[w].r
  {
    RunKeeps(p, states, acts, n);
    var s := states[n];
    assert HandOk(p, s, s.pcs[w]) && InHand(s.pcs[w], s.pcs[w].r);
  }

  /** Until the stop signal some worker is off the condition variable. */
  lemma NotAllWaiting(p: Program, states: seq<State>, acts: seq<Act>, n: nat)
    requires p.Valid() && IsRun(p, states, acts) && n < |states| && !states[n].stopped
    ensures exists w :: 0 <= w < |states[n].pcs| && !states[n].pcs[w].Waiting?
  {
    RunKeeps(p, states, acts, n);
    var s := states[n];
    if forall w | 0 <= w < |s.pcs| :: s.pcs[w].Waiting? { AllWaiting(s.pcs); }
  }

  lemma {:induction false} AllWaiting(pcs: seq<Pc>)
    requires forall w | 0 <= w < |pcs| :: pcs[w].Waiting?
    ensures |WaitingSet(pcs)| == |pcs|
  {
    if pcs == [] {
      assert WaitingSet(pcs) == {};
    } else {
      var init := pcs[..|pcs| - 1];
      AllWaiting(init);
      assert WaitingSet(pcs) == WaitingSet(init) + {|pcs| - 1};
    }
  }

  // ---- a run with a pick that is not clear ----

  /** One worker; reactions 0 (level 1), 1 (level 0) and 2 (level 1) with deadlines 1, 2 and 3, and
      reaction 1 upstream of reaction 2. */
  const TRAP := Program([0x1_0001, 0x2_0000, 0x3_0001], {(1, 2)}, 1, 1, true)
  const TRAP_LOG := [Triggered(0), Triggered(1), Triggered(2)]

  function TrapState(level: nat, queue: set<Reaction>, pc: Pc, log: seq<Event>): State {
    State(queue, level, 0, false, [pc], {0, 1, 2}, log, [])
  }

  lemma TrapStart()
    ensures FirstOk(TRAP, [0, 1, 2]) && Start(TRAP, [0, 1, 2]) == TrapState(0, {0, 1, 2}, Sched, TRAP_LOG)
  {
    assert Elements([0, 1, 2]) == {0, 1, 2};
    assert Triggers([0, 1, 2]) == TRAP_LOG;
  }

  lemma TrapPeek(level: nat)
    requires level <= 1
    ensures Enabled(TRAP, TrapState(level, {0, 1, 2}, Sched, TRAP_LOG), 0, Peek(0))
    ensures Next(TRAP, TrapState(level, {0, 1, 2}, Sched, TRAP_LOG), 0, Peek(0)) ==
            if level == 0 then TrapState(1, {0, 1, 2}, Sched, TRAP_LOG) else TrapState(1, {1, 2}, Got(0), TRAP_LOG)
  {
    var s := TrapState(level, {0, 1, 2}, Sched, TRAP_LOG);
    assert IsLeast(TRAP, s.queue, 0) && TRAP.Level(0) == 1;
  }

  lemma TrapPick()
    ensures Enabled(TRAP, TrapState(1, {1, 2}, Got(0), TRAP_LOG), 0, Pick(2))
    ensures Next(TRAP, TrapState(1, {1, 2}, Got(0), TRAP_LOG), 0, Pick(2)) == TrapState(1, {0, 1}, Running(2), TRAP_LOG + [Started(2)])
  {
    assert TRAP.Level(2) == 1;
  }

  /** With picks the order can break: the worker pops reaction 0, and the pick replaces it by reaction 2
      while reaction 1 is still queued. */
  lemma PickCanBreakPrecedence() returns (p: Program, states: seq<State>, acts: seq<Act>)
    ensures p.Valid() && p.picks && IsRun(p, states, acts)
    ensures exists r: nat, u: nat :: Started(r) in states[|states| - 1].log && u in states[|states| - 1].queue && Upstream(p, u, r)
  {
    p := TRAP;
    TrapStart();
    TrapPeek(0);
    TrapPeek(1);
    TrapPick();
    var last := TrapState(1, {0, 1}, Running(2), TRAP_LOG + [Started(2)]);
    states := [TrapState(0, {0, 1, 2}, Sched, TRAP_LOG), TrapState(1, {0, 1, 2}, Sched, TRAP_LOG),
               TrapState(1, {1, 2}, Got(0), TRAP_LOG), last];
    acts := [Act(0, Peek(0)), Act(0, Peek(0)), Act(0, Pick(2))];
    UpstreamPrepend(p, 1, 2, 2);
    assert Started(2) == last.log[3];
  }
}
