/** The event loop whose effects are calls of lf_schedule_trigger and stop requests: one queue under
    the guarantees of both. */
module LoopOfCalls {
  import opened Wrappers
  import opened Tags
  import opened Scheduling
  import ST = SchedulingTheorems
  import L = EventLoop

  datatype Request = Ask(c: Call) | Stop

  /** The loop and the scheduler see one tag, one stop tag and one queue. */
  predicate Joint(env: Env, s: L.State) { env.current == s.current && env.stop == s.stop && env.queue == s.queue }

  // ---- one call as effects on the queue ----

  function First(queue: seq<Event>, trigger: nat, t: Tag): (e: Event)
    requires Taken(queue, trigger, t)
    ensures e in queue && e.trigger == trigger && e.tag == t
  {
    if queue[0].trigger == trigger && queue[0].tag == t then queue[0]
    else
      ST.TakenSplit(queue, trigger, t);
      First(queue[1..], trigger, t)
  }

  lemma {:induction false} RemoveIsMinus(queue: seq<Event>, trigger: nat, t: Tag)
    requires Taken(queue, trigger, t)
    ensures RemoveAt(queue, trigger, t) == L.Minus(queue, First(queue, trigger, t))
  {
    if !(queue[0].trigger == trigger && queue[0].tag == t) {
      ST.TakenSplit(queue, trigger, t);
      RemoveIsMinus(queue[1..], trigger, t);
    }
  }

  lemma {:induction false} SetTokenIsExchange(queue: seq<Event>, trigger: nat, t: Tag, token: int)
    requires Taken(queue, trigger, t)
    ensures var e := First(queue, trigger, t); SetToken(queue, trigger, t, token) == L.Exchange(queue, e, e.(token := token))
  {
    if !(queue[0].trigger == trigger && queue[0].tag == t) {
      ST.TakenSplit(queue, trigger, t);
      SetTokenIsExchange(queue[1..], trigger, t, token);
    }
  }

  function Withdrawal(env: Env, c: Call, without: Option<Tag>): seq<L.Effect> {
    if without.Some? && Taken(env.queue, c.trigger, without.value)
    then [L.Withdraw(First(env.queue, c.trigger, without.value))] else []
  }

  /** The effects of a call on the event queue, in order. */
  function EffectsOf(p: Program, env: Env, c: Call): seq<L.Effect>
    requires c.trigger < |p| && IsTime(LastTag(env, c.trigger).time) && IsTime(p[c.trigger].period)
  {
    var tr := p[c.trigger];
    if AfterStop(env, env.current) then []
    else
      match Rule(tr, env, c)
      case Dropped => []
      case Replaced =>
        var e := First(env.queue, c.trigger, LastTag(env, c.trigger));
        [L.Renew(e, e.(token := c.token))]
      case At(t, without) =>
        var final := FinalTag(tr, env, c, t);
        Withdrawal(env, c, without) + if AfterStop(env, final) then [] else [L.Insert(Event(c.trigger, final, c.token))]
  }

  lemma {:induction false} AffectConcat(s: L.State, a: seq<L.Effect>, b: seq<L.Effect>)
    ensures L.AffectAll(s, a + b) == L.AffectAll(L.AffectAll(s, a), b)
    ensures L.AllLegal(s, a + b) <==> L.AllLegal(s, a) && L.AllLegal(L.AffectAll(s, a), b)
    decreases |a|
  {
    if a == [] {
      assert a + b == b;
    } else {
      assert (a + b)[1..] == a[1..] + b;
      AffectConcat(L.Affect(s, a[0]), a[1..], b);
    }
  }

  lemma AffectOne(s: L.State, f: L.Effect)
    ensures L.AffectAll(s, [f]) == L.Affect(s, f) && (L.AllLegal(s, [f]) <==> L.Legal(s, f))
  {
    assert [f][1..] == [];
  }

  /** The withdrawal of the update policy. */
  lemma WithdrawalIs(env: Env, c: Call, without: Option<Tag>, s: L.State)
    requires Joint(env, s)
    ensures var r := L.AffectAll(s, Withdrawal(env, c, without));
      && L.AllLegal(s, Withdrawal(env, c, without)) && r.current == s.current && r.stop == s.stop
      && r.queue == if without.Some? then RemoveAt(env.queue, c.trigger, without.value) else env.queue
  {
    if without.Some? {
      var t := without.value;
      if Taken(env.queue, c.trigger, t) {
        RemoveIsMinus(env.queue, c.trigger, t);
        AffectOne(s, L.Withdraw(First(env.queue, c.trigger, t)));
      } else {
        NothingToRemove(env.queue, c.trigger, t);
      }
    }
  }

  /** A call that is not backdated acts on the loop's queue by legal effects. */
  lemma CallIsEffects(p: Program, env: Env, c: Call, s: L.State)
    requires ST.Sane(p, env, c) && Joint(env, s) && !ST.Backdated(p, env, c)
    ensures L.AllLegal(s, EffectsOf(p, env, c))
    ensures Joint(Schedule(p, env, c).0, L.AffectAll(s, EffectsOf(p, env, c)))
  {
    if AfterStop(env, env.current) { return; }
    match Rule(p[c.trigger], env, c)
    case Dropped =>
    case Replaced =>
      var last := LastTag(env, c.trigger);
      var e := First(env.queue, c.trigger, last);
      SetTokenIsExchange(env.queue, c.trigger, last, c.token);
      AffectOne(s, L.Renew(e, e.(token := c.token)));
    case At(t, without) => PlacingIsEffects(p, env, c, s, t, without);
  }

  lemma PlacingIsEffects(p: Program, env: Env, c: Call, s: L.State, t: Tag, without: Option<Tag>)
    requires ST.Sane(p, env, c) && Joint(env, s) && !ST.Backdated(p, env, c)
    requires !AfterStop(env, env.current) && Rule(p[c.trigger], env, c) == At(t, without)
    ensures L.AllLegal(s, EffectsOf(p, env, c))
    ensures Joint(Schedule(p, env, c).0, L.AffectAll(s, EffectsOf(p, env, c)))
  {
    var a, final := Withdrawal(env, c, without), FinalTag(p[c.trigger], env, c, t);
    WithdrawalIs(env, c, without, s);
    var s1 := L.AffectAll(s, a);
    if AfterStop(env, final) {
      assert a + [] == a;
    } else {
      var f := L.Insert(Event(c.trigger, final, c.token));
      ST.AddedIsInTheFuture(p, env, c);
      AffectConcat(s, a, [f]);
      AffectOne(s1, f);
    }
  }

  // ---- requests in sequence ----

  function OpOf(env: Env, r: Request): ST.Op {
    match r
    case Ask(c) => ST.Do(c)
    case Stop => ST.Lower(L.Lower(env.stop, L.Soon(env.current)))
  }

  ghost predicate Asked(p: Program, env: Env, rs: seq<Request>)
    decreases |rs|
  {
    rs == [] || (ST.Legal(p, env, OpOf(env, rs[0])) && Asked(p, ST.Next(p, env, OpOf(env, rs[0])), rs[1..]))
  }

  ghost function After(p: Program, env: Env, rs: seq<Request>): Env
    requires Asked(p, env, rs)
    decreases |rs|
  {
    if rs == [] then env else After(p, ST.Next(p, env, OpOf(env, rs[0])), rs[1..])
  }

  ghost function Effects(p: Program, env: Env, rs: seq<Request>): seq<L.Effect>
    requires Asked(p, env, rs)
    decreases |rs|
  {
    if rs == [] then []
    else (if rs[0].Ask? then EffectsOf(p, env, rs[0].c) else [L.RequestStop])
         + Effects(p, ST.Next(p, env, OpOf(env, rs[0])), rs[1..])
  }

  /** No call of the program can be backdated. */
  ghost predicate AllForward(p: Program) { forall k | 0 <= k < |p| :: ST.Forward(p[k]) }

  lemma RequestIsEffects(p: Program, env: Env, r: Request, s: L.State)
    requires AllForward(p) && ST.Legal(p, env, OpOf(env, r)) && Joint(env, s)
    ensures var fs := if r.Ask? then EffectsOf(p, env, r.c) else [L.RequestStop];
      L.AllLegal(s, fs) && Joint(ST.Next(p, env, OpOf(env, r)), L.AffectAll(s, fs))
  {
    match r
    case Ask(c) => CallIsEffects(p, env, c, s);
    case Stop => AffectOne(s, L.RequestStop);
  }

  lemma {:induction false} RequestsAreEffects(p: Program, env: Env, rs: seq<Request>, s: L.State)
    requires AllForward(p) && Asked(p, env, rs) && Joint(env, s)
    ensures L.AllLegal(s, Effects(p, env, rs)) && Joint(After(p, env, rs), L.AffectAll(s, Effects(p, env, rs)))
    decreases |rs|
  {
    if rs != [] {
      var fs := if rs[0].Ask? then EffectsOf(p, env, rs[0].c) else [L.RequestStop];
      var env1 := ST.Next(p, env, OpOf(env, rs[0]));
      RequestIsEffects(p, env, rs[0], s);
      RequestsAreEffects(p, env1, rs[1..], L.AffectAll(s, fs));
      AffectConcat(s, fs, Effects(p, env1, rs[1..]));
    }
  }

  lemma {:induction false} RequestsKeep(p: Program, env: Env, rs: seq<Request>)
    requires Asked(p, env, rs) && ST.Inv(p, env)
    ensures ST.Inv(p, After(p, env, rs))
    decreases |rs|
  {
    if rs != [] {
      var env1 := ST.Next(p, env, OpOf(env, rs[0]));
      if rs[0].Ask? { ST.CallKeeps(p, env, rs[0].c); }
      RequestsKeep(p, env1, rs[1..]);
    }
  }

  // ---- runs of both ----

  datatype Both = Both(loop: L.State, env: Env)

  datatype Turn = Turn(keepalive: bool, interrupted: bool, requests: seq<Request>)

  /** The scheduler's view when the requests of a turn are made. */
  function Arrived(b: Both, u: Turn): Env {
    var env := b.env.(stop := L.StopNow(b.loop, u.keepalive));
    if u.interrupted then env
    else
      var t := L.NextTag(b.loop, u.keepalive);
      env.(current := t, queue := Kept(env.queue, t))
  }

  ghost predicate Enabled(p: Program, b: Both, u: Turn) { b.loop.running && Asked(p, Arrived(b, u), u.requests) }

  ghost function LoopTurn(p: Program, b: Both, u: Turn): L.Turn
    requires Enabled(p, b, u)
  {
    L.Turn(u.keepalive, u.interrupted, Effects(p, Arrived(b, u), u.requests))
  }

  ghost function Next(p: Program, b: Both, u: Turn): Both
    requires Enabled(p, b, u)
  {
    Both(L.Next(b.loop, LoopTurn(p, b, u)), After(p, Arrived(b, u), u.requests))
  }

  /** Timers have queued their first events; requests are those of the step at the start tag. */
  datatype Setup = Setup(start: Tag, stop: Tag, timers: seq<Event>, requests: seq<Request>)

  function AtStart(u: Setup): Env { Env(u.start, u.stop, u.start, u.timers, map[], 1, u.timers) }

  ghost predicate CanBegin(p: Program, u: Setup) {
    && ST.Starts(p, AtStart(u)) && AtMost(u.start, u.stop) && AtMost(u.stop, FOREVER_TAG)
    && (forall e | e in u.timers :: AtMost(e.tag, u.stop)) && Asked(p, AtStart(u), u.requests)
  }

  ghost function Begin(p: Program, u: Setup): Both
    requires CanBegin(p, u)
  {
    Both(L.Begin(u.start, u.stop, u.timers, Effects(p, AtStart(u), u.requests)), After(p, AtStart(u), u.requests))
  }

  ghost predicate IsRun(p: Program, bs: seq<Both>, us: seq<Turn>) {
    && |bs| == |us| + 1
    && (exists u: Setup :: CanBegin(p, u) && bs[0] == Begin(p, u))
    && forall i | 0 <= i < |us| :: Enabled(p, bs[i], us[i]) && bs[i + 1] == Next(p, bs[i], us[i])
  }

  ghost predicate Inv(p: Program, b: Both) { Joint(b.env, b.loop) && L.Inv(b.loop) && ST.Inv(p, b.env) }

  lemma TurnIsLegal(p: Program, b: Both, u: Turn)
    requires AllForward(p) && Inv(p, b) && Enabled(p, b, u)
    ensures L.Enabled(b.loop, LoopTurn(p, b, u)) && Joint(Next(p, b, u).env, Next(p, b, u).loop)
  {
    var v, env := LoopTurn(p, b, u), Arrived(b, u);
    var planned := L.Planned(b.loop, v);
    RequestsAreEffects(p, env, u.requests, if u.interrupted then planned else L.Arrive(planned, L.NextTag(b.loop, u.keepalive)));
  }

  lemma ArrivedIsFine(p: Program, b: Both, u: Turn)
    requires Inv(p, b) && b.loop.running
    ensures ST.Inv(p, Arrived(b, u))
  {
    L.NextTagIsNext(b.loop, u.keepalive);
    var env := b.env.(stop := L.StopNow(b.loop, u.keepalive));
    assert ST.Inv(p, env);
    if !u.interrupted { ST.AdvanceKeeps(p, env, L.NextTag(b.loop, u.keepalive)); }
  }

  lemma TurnKeeps(p: Program, b: Both, u: Turn)
    requires AllForward(p) && Inv(p, b) && Enabled(p, b, u)
    ensures Inv(p, Next(p, b, u)) && L.Enabled(b.loop, LoopTurn(p, b, u))
  {
    TurnIsLegal(p, b, u);
    L.TurnKeeps(b.loop, LoopTurn(p, b, u));
    ArrivedIsFine(p, b, u);
    RequestsKeep(p, Arrived(b, u), u.requests);
  }

  lemma BeginKeeps(p: Program, u: Setup)
    requires AllForward(p) && CanBegin(p, u)
    ensures Inv(p, Begin(p, u)) && L.CanBegin(u.start, u.stop, u.timers, Effects(p, AtStart(u), u.requests))
  {
    var s := L.Fresh(u.start, u.stop, u.timers);
    RequestsAreEffects(p, AtStart(u), u.requests, s);
    assert L.Events([]) == [];
    L.AffectKeeps(s, Effects(p, AtStart(u), u.requests));
    StartIsFine(p, u);
    RequestsKeep(p, AtStart(u), u.requests);
  }

  lemma StartIsFine(p: Program, u: Setup)
    requires ST.Starts(p, AtStart(u))
    ensures ST.Inv(p, AtStart(u))
  {
  }

  lemma {:induction false} RunKeeps(p: Program, bs: seq<Both>, us: seq<Turn>, n: nat)
    requires AllForward(p) && IsRun(p, bs, us) && n < |bs|
    ensures Inv(p, bs[n])
  {
    if n == 0 {
      var u: Setup :| CanBegin(p, u) && bs[0] == Begin(p, u);
      BeginKeeps(p, u);
    } else {
      RunKeeps(p, bs, us, n - 1);
      TurnKeeps(p, bs[n - 1], us[n - 1]);
    }
  }

  // ---- the loop's guarantees ----

  ghost predicate AllEnabled(p: Program, bs: seq<Both>, us: seq<Turn>) {
    |us| <= |bs| && forall i | 0 <= i < |us| :: Enabled(p, bs[i], us[i])
  }

  ghost function LoopStates(bs: seq<Both>): seq<L.State> { seq(|bs|, i requires 0 <= i < |bs| => bs[i].loop) }

  ghost function LoopTurns(p: Program, bs: seq<Both>, us: seq<Turn>): seq<L.Turn>
    requires AllEnabled(p, bs, us)
  {
    seq(|us|, i requires 0 <= i < |us| => LoopTurn(p, bs[i], us[i]))
  }

  /** A run of calls is a run of the loop: everything proved of the loop holds of it. */
  lemma RunsTheLoop(p: Program, bs: seq<Both>, us: seq<Turn>)
    requires AllForward(p) && IsRun(p, bs, us)
    ensures AllEnabled(p, bs, us) && L.IsRun(LoopStates(bs), LoopTurns(p, bs, us))
  {
    var states, turns := LoopStates(bs), LoopTurns(p, bs, us);
    var u: Setup :| CanBegin(p, u) && bs[0] == Begin(p, u);
    BeginKeeps(p, u);
    assert states[0] == L.Begin(u.start, u.stop, u.timers, Effects(p, AtStart(u), u.requests));
    forall i | 0 <= i < |turns| ensures L.Enabled(states[i], turns[i]) && states[i + 1] == L.Next(states[i], turns[i]) {
      RunKeeps(p, bs, us, i);
      TurnKeeps(p, bs[i], us[i]);
    }
  }

  // ---- the spacing of handled events ----

  /** The events of a run that were not withdrawn: queued or popped. */
  ghost function Bag(s: L.State): multiset<Event> { multiset(s.queue) + multiset(L.Events(s.popped)) }

  predicate FarApart(a: Event, b: Event, gap: int) { a.tag.time + gap <= b.tag.time || b.tag.time + gap <= a.tag.time }

  /** The events of trigger k are once each, at least the gap apart, and none after the last tag. */
  ghost predicate SpacedBag(m: multiset<Event>, k: nat, gap: int, last: map<nat, Tag>) {
    && (forall e | e in m && e.trigger == k ::
          m[e] == 1 && k in last && NEVER < last[k].time && e.tag.time <= last[k].time)
    && (forall e, f | e in m && f in m && e.trigger == k && f.trigger == k && e != f :: FarApart(e, f, gap))
  }

  /** The effect does not touch events of trigger k. */
  predicate Foreign(f: L.Effect, k: nat) {
    match f
    case Insert(e) => e.trigger != k
    case Withdraw(e) => e.trigger != k
    case Renew(e, other) => e.trigger != k && other.trigger != k
    case RequestStop => true
  }

  /** What one effect does to the bag. */
  ghost function BagAfter(m: multiset<Event>, f: L.Effect): multiset<Event> {
    match f
    case Insert(e) => m + multiset{e}
    case Withdraw(e) => m - multiset{e}
    case Renew(e, other) => m - multiset{e} + multiset{other}
    case RequestStop => m
  }

  lemma EffectBag(s: L.State, f: L.Effect)
    requires L.Legal(s, f)
    ensures Bag(L.Affect(s, f)) == BagAfter(Bag(s), f) && (f.Withdraw? || f.Renew? ==> f.e in Bag(s))
  {
    var popped := multiset(L.Events(s.popped));
    match f
    case Insert(e) => PutIn(multiset(s.queue), popped, e);
    case Withdraw(e) => WithoutOne(s, e);
    case Renew(e, other) =>
      WithoutOne(s, e);
      L.ExchangeIs(s.queue, e, other);
      PutIn(multiset(L.Minus(s.queue, e)), popped, other);
    case RequestStop =>
  }

  lemma WithoutOne(s: L.State, e: Event)
    requires e in s.queue
    ensures e in Bag(s) && multiset(L.Minus(s.queue, e)) + multiset(L.Events(s.popped)) == Bag(s) - multiset{e}
  {
    L.MinusIs(s.queue, e);
    TakeOut(multiset(s.queue), multiset(L.Minus(s.queue, e)), multiset(L.Events(s.popped)), e);
  }

  lemma PutIn(q: multiset<Event>, popped: multiset<Event>, e: Event)
    ensures q + multiset{e} + popped == q + popped + multiset{e}
  {
  }

  lemma TakeOut(q: multiset<Event>, rest: multiset<Event>, popped: multiset<Event>, e: Event)
    requires q == rest + multiset{e}
    ensures e in q + popped && rest + popped == q + popped - multiset{e}
  {
  }

  lemma ForeignOne(s: L.State, f: L.Effect, k: nat)
    requires L.Legal(s, f) && Foreign(f, k)
    ensures forall e: Event | e.trigger == k :: Bag(L.Affect(s, f))[e] == Bag(s)[e]
  {
    EffectBag(s, f);
  }

  lemma {:induction false} ForeignKeeps(s: L.State, fs: seq<L.Effect>, k: nat)
    requires L.AllLegal(s, fs) && forall i | 0 <= i < |fs| :: Foreign(fs[i], k)
    ensures forall e: Event | e.trigger == k :: Bag(L.AffectAll(s, fs))[e] == Bag(s)[e]
    decreases |fs|
  {
    if fs != [] {
      ForeignOne(s, fs[0], k);
      ForeignKeeps(L.Affect(s, fs[0]), fs[1..], k);
    }
  }

  lemma SameBag(m: multiset<Event>, r: multiset<Event>, k: nat, gap: int, last: map<nat, Tag>, last': map<nat, Tag>)
    requires SpacedBag(m, k, gap, last) && (k in last ==> k in last' && last'[k] == last[k])
    requires forall e: Event | e.trigger == k :: r[e] == m[e]
    ensures SpacedBag(r, k, gap, last')
  {
    assert forall e: Event | e.trigger == k :: e in r <==> e in m;
  }

  lemma BagInsert(m: multiset<Event>, k: nat, gap: int, last: map<nat, Tag>, e: Event)
    requires SpacedBag(m, k, gap, last) && gap > 0 && e.trigger == k && NEVER < e.tag.time
    requires k in last && NEVER < last[k].time ==> last[k].time + gap <= e.tag.time
    ensures SpacedBag(m + multiset{e}, k, gap, last[k := e.tag])
  {
  }

  lemma BagRenew(m: multiset<Event>, k: nat, gap: int, last: map<nat, Tag>, e: Event, other: Event)
    requires SpacedBag(m, k, gap, last) && gap > 0 && e in m && e.trigger == k && other == e.(token := other.token)
    ensures SpacedBag(m - multiset{e} + multiset{other}, k, gap, last)
  {
    assert other != e && other in m ==> FarApart(e, other, gap);
  }

  /** A call of the spaced action itself. */
  lemma OwnCallKeeps(p: Program, env: Env, c: Call, s: L.State)
    requires ST.Sane(p, env, c) && Joint(env, s) && !ST.Backdated(p, env, c) && ST.Spaced(p[c.trigger])
    requires SpacedBag(Bag(s), c.trigger, p[c.trigger].period, env.last)
    ensures SpacedBag(Bag(L.AffectAll(s, EffectsOf(p, env, c))), c.trigger, p[c.trigger].period, Schedule(p, env, c).0.last)
  {
    CallIsEffects(p, env, c, s);
    ST.AddedIs(p, env, c);
    OwnEffects(p, env, c);
    var fs := EffectsOf(p, env, c);
    if fs != [] {
      AffectOne(s, fs[0]);
      EffectBag(s, fs[0]);
      if fs[0].Renew? {
        BagRenew(Bag(s), c.trigger, p[c.trigger].period, env.last, fs[0].e, fs[0].other);
      } else {
        BagInsert(Bag(s), c.trigger, p[c.trigger].period, env.last, fs[0].e);
      }
    }
  }

  /** A call of a spaced action renews its last event or adds one at least the spacing on. */
  lemma OwnEffects(p: Program, env: Env, c: Call)
    requires ST.Sane(p, env, c) && !ST.Backdated(p, env, c) && ST.Spaced(p[c.trigger])
    ensures var fs, last, gap := EffectsOf(p, env, c), LastTag(env, c.trigger), p[c.trigger].period;
      || (fs == [] && ST.Added(p, env, c).None?)
      || (|fs| == 1 && fs[0].Renew? && fs[0].e.trigger == c.trigger && fs[0].other == fs[0].e.(token := c.token)
          && ST.Added(p, env, c).None?)
      || (|fs| == 1 && fs[0].Insert? && ST.Added(p, env, c) == Some(fs[0].e.tag) && fs[0].e.trigger == c.trigger
          && NEVER < fs[0].e.tag.time && (last.time == NEVER || last.time + gap <= fs[0].e.tag.time))
  {
    if ST.Added(p, env, c).Some? {
      ST.SpacedTag(p, env, c);
      ST.AddedIsReal(p, env, c);
    }
  }

  /** A call touches only events of its own trigger. */
  lemma CallIsForeign(p: Program, env: Env, c: Call, k: nat)
    requires ST.Sane(p, env, c) && k != c.trigger
    ensures forall i | 0 <= i < |EffectsOf(p, env, c)| :: Foreign(EffectsOf(p, env, c)[i], k)
    ensures k in env.last ==> k in Schedule(p, env, c).0.last && Schedule(p, env, c).0.last[k] == env.last[k]
  {
    ST.AddedIs(p, env, c);
  }

  lemma RequestKeepsSpacing(p: Program, env: Env, r: Request, s: L.State, k: nat)
    requires AllForward(p) && ST.Legal(p, env, OpOf(env, r)) && Joint(env, s) && k < |p| && ST.Spaced(p[k])
    requires SpacedBag(Bag(s), k, p[k].period, env.last)
    ensures var fs := if r.Ask? then EffectsOf(p, env, r.c) else [L.RequestStop];
      SpacedBag(Bag(L.AffectAll(s, fs)), k, p[k].period, ST.Next(p, env, OpOf(env, r)).last)
  {
    RequestIsEffects(p, env, r, s);
    if r.Ask? && r.c.trigger == k {
      OwnCallKeeps(p, env, r.c, s);
    } else {
      var fs := if r.Ask? then EffectsOf(p, env, r.c) else [L.RequestStop];
      if r.Ask? { CallIsForeign(p, env, r.c, k); }
      ForeignKeeps(s, fs, k);
      SameBag(Bag(s), Bag(L.AffectAll(s, fs)), k, p[k].period, env.last, ST.Next(p, env, OpOf(env, r)).last);
    }
  }

  lemma {:induction false} RequestsKeepSpacing(p: Program, env: Env, rs: seq<Request>, s: L.State, k: nat)
    requires AllForward(p) && Asked(p, env, rs) && Joint(env, s) && k < |p| && ST.Spaced(p[k])
    requires SpacedBag(Bag(s), k, p[k].period, env.last)
    ensures SpacedBag(Bag(L.AffectAll(s, Effects(p, env, rs))), k, p[k].period, After(p, env, rs).last)
    decreases |rs|
  {
    if rs != [] {
      var fs := if rs[0].Ask? then EffectsOf(p, env, rs[0].c) else [L.RequestStop];
      var env1 := ST.Next(p, env, OpOf(env, rs[0]));
      RequestIsEffects(p, env, rs[0], s);
      RequestKeepsSpacing(p, env, rs[0], s, k);
      RequestsKeepSpacing(p, env1, rs[1..], L.AffectAll(s, fs), k);
      AffectConcat(s, fs, Effects(p, env1, rs[1..]));
    }
  }

  /** Moving to a tag takes its events from the queue to the popped ones. */
  lemma ArriveBag(s: L.State, t: Tag)
    ensures Bag(L.Arrive(s, t)) == Bag(s)
  {
    L.Split(s.queue, t);
    assert L.Events(L.Arrive(s, t).popped) == L.Events(s.popped) + L.AtTag(s.queue, t);
  }

  ghost predicate BagOk(p: Program, b: Both, k: nat)
    requires k < |p|
  {
    SpacedBag(Bag(b.loop), k, p[k].period, b.env.last)
  }

  lemma TurnKeepsSpacing(p: Program, b: Both, u: Turn, k: nat)
    requires AllForward(p) && Inv(p, b) && Enabled(p, b, u) && k < |p| && ST.Spaced(p[k]) && BagOk(p, b, k)
    ensures BagOk(p, Next(p, b, u), k)
  {
    var v := LoopTurn(p, b, u);
    var planned, t := L.Planned(b.loop, v), L.NextTag(b.loop, u.keepalive);
    assert Bag(planned) == Bag(b.loop);
    ArriveBag(planned, t);
    RequestsKeepSpacing(p, Arrived(b, u), u.requests, if u.interrupted then planned else L.Arrive(planned, t), k);
  }

  lemma BeginKeepsSpacing(p: Program, u: Setup, k: nat)
    requires AllForward(p) && CanBegin(p, u) && k < |p| && ST.Spaced(p[k])
    ensures BagOk(p, Begin(p, u), k)
  {
    var s := L.Fresh(u.start, u.stop, u.timers);
    assert Bag(s) == multiset(u.timers);
    assert forall e | e in multiset(u.timers) :: e in u.timers;
    RequestsKeepSpacing(p, AtStart(u), u.requests, s, k);
  }

  lemma {:induction false} RunKeepsSpacing(p: Program, bs: seq<Both>, us: seq<Turn>, n: nat, k: nat)
    requires AllForward(p) && IsRun(p, bs, us) && n < |bs| && k < |p| && ST.Spaced(p[k])
    ensures BagOk(p, bs[n], k)
  {
    if n == 0 {
      var u: Setup :| CanBegin(p, u) && bs[0] == Begin(p, u);
      BeginKeepsSpacing(p, u, k);
    } else {
      RunKeepsSpacing(p, bs, us, n - 1, k);
      RunKeeps(p, bs, us, n - 1);
      TurnKeepsSpacing(p, bs[n - 1], us[n - 1], k);
    }
  }

  /** Over any run of calls in the event loop: each event of a spaced action is handled once, at its
      own tag, and any two of them, handled or still queued, are at least the spacing apart. */
  lemma HandledAreSpaced(p: Program, bs: seq<Both>, us: seq<Turn>, n: nat, a: Event, b: Event)
    requires AllForward(p) && IsRun(p, bs, us) && n < |bs|
    requires a.trigger == b.trigger < |p| && ST.Spaced(p[a.trigger]) && a != b
    requires a in Bag(bs[n].loop) && b in Bag(bs[n].loop)
    ensures FarApart(a, b, p[a.trigger].period)
    ensures Bag(bs[n].loop)[a] == 1
    ensures forall i | 0 <= i < |bs[n].loop.popped| :: bs[n].loop.popped[i].0.tag == bs[n].loop.popped[i].1
  {
    RunKeepsSpacing(p, bs, us, n, a.trigger);
    RunKeeps(p, bs, us, n);
  }
}
