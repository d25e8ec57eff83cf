/** The single-threaded event loop (core/reactor.c): tags advance through the event queue up to the
    stop tag. */
module EventLoop {
  import opened Tags
  import opened Scheduling

  /** What reactions, rescheduled timers, interrupts and mode transitions do: queue an event, take one
      off the queue (the update policy, or the retraction of events of inactive modes), put another
      payload in its place, or request a stop. */
  datatype Effect = Insert(e: Event) | Withdraw(e: Event) | Renew(e: Event, other: Event) | RequestStop

  /** tags logs the tags processed, popped the events with the tag at which each was popped,
      inserted every event ever queued, withdrawn those taken off before their tag. */
  datatype State = State(
    current: Tag, stop: Tag, queue: seq<Event>, running: bool,
    tags: seq<Tag>, popped: seq<(Event, Tag)>, inserted: seq<Event>, withdrawn: seq<Event>)

  // ---- pieces ----

  /** lf_set_stop_tag. */
  function Lower(stop: Tag, t: Tag): Tag { if Before(t, stop) then t else stop }

  function Soon(current: Tag): Tag { Tag(current.time, current.microstep + 1) }

  /** pqueue_tag_peek_tag: the least tag, FOREVER_TAG for an empty queue. */
  function Earliest(queue: seq<Event>): (t: Tag)
    ensures forall e | e in queue :: AtMost(t, e.tag)
    ensures queue != [] ==> exists i :: 0 <= i < |queue| && queue[i].tag == t
  {
    if queue == [] then FOREVER_TAG
    else if |queue| == 1 then queue[0].tag
    else
      var t := Earliest(queue[1..]);
      assert queue == [queue[0]] + queue[1..];
      assert exists i :: 0 <= i < |queue| && queue[i].tag == t by {
        var i :| 0 <= i < |queue[1..]| && queue[1..][i].tag == t;
        assert queue[i + 1].tag == t;
      }
      if Before(queue[0].tag, t) then queue[0].tag else t
  }

  function AtTag(queue: seq<Event>, t: Tag): seq<Event> {
    if queue == [] then []
    else if queue[0].tag == t then [queue[0]] + AtTag(queue[1..], t) else AtTag(queue[1..], t)
  }

  /** The queue without its first occurrence of e. */
  function Minus(queue: seq<Event>, e: Event): seq<Event> {
    if queue == [] then [] else if queue[0] == e then queue[1..] else [queue[0]] + Minus(queue[1..], e)
  }

  /** The queue with its first occurrence of e replaced. */
  function Exchange(queue: seq<Event>, e: Event, other: Event): seq<Event> {
    if queue == [] then [] else if queue[0] == e then [other] + queue[1..] else [queue[0]] + Exchange(queue[1..], e, other)
  }

  function Stamp(events: seq<Event>, t: Tag): seq<(Event, Tag)> {
    seq(|events|, i requires 0 <= i < |events| => (events[i], t))
  }

  /** The choice of the next tag in next(): the stop tag drops to the next microstep when nothing is
      queued and keepalive is off. */
  function StopNow(s: State, keepalive: bool): Tag {
    if s.queue == [] && !keepalive then Lower(s.stop, Soon(s.current)) else s.stop
  }

  function NextTag(s: State, keepalive: bool): Tag {
    Lower(StopNow(s, keepalive), Earliest(s.queue))
  }

  /** An event may be queued only strictly after the current tag and not after the stop tag; only a
      queued event can be withdrawn or replaced, and the replacement has its tag. */
  predicate Legal(s: State, f: Effect) {
    match f
    case Insert(e) => Before(s.current, e.tag) && AtMost(e.tag, s.stop)
    case Withdraw(e) => e in s.queue
    case Renew(e, other) => e in s.queue && other.tag == e.tag
    case RequestStop => true
  }

  function Affect(s: State, f: Effect): State {
    match f
    case Insert(e) => s.(queue := s.queue + [e], inserted := s.inserted + [e])
    case Withdraw(e) => s.(queue := Minus(s.queue, e), withdrawn := s.withdrawn + [e])
    case Renew(e, other) =>
      s.(queue := Exchange(s.queue, e, other), inserted := s.inserted + [other], withdrawn := s.withdrawn + [e])
    case RequestStop => s.(stop := Lower(s.stop, Soon(s.current)))
  }

  predicate AllLegal(s: State, fs: seq<Effect>)
    decreases |fs|
  {
    fs == [] || (Legal(s, fs[0]) && AllLegal(Affect(s, fs[0]), fs[1..]))
  }

  function AffectAll(s: State, fs: seq<Effect>): State
    decreases |fs|
  {
    if fs == [] then s else AffectAll(Affect(s, fs[0]), fs[1..])
  }

  /** Advancing the tag and popping its events. */
  function Arrive(s: State, t: Tag): State {
    s.(current := t, queue := Kept(s.queue, t), tags := s.tags + [t], popped := s.popped + Stamp(AtTag(s.queue, t), t))
  }

  /** The end of _lf_do_step: go on unless the stop tag is reached. */
  function Judge(s: State): State { s.(running := Before(s.current, s.stop)) }

  /** One call of next(): interrupted in its wait, or completed, with the effects that happen then. */
  datatype Turn = Turn(keepalive: bool, interrupted: bool, effects: seq<Effect>)

  predicate Enabled(s: State, u: Turn) {
    s.running && AllLegal(if u.interrupted then Planned(s, u) else Arrive(Planned(s, u), NextTag(s, u.keepalive)), u.effects)
  }

  function Planned(s: State, u: Turn): State { s.(stop := StopNow(s, u.keepalive)) }

  function Next(s: State, u: Turn): State {
    if u.interrupted then AffectAll(Planned(s, u), u.effects)
    else Judge(AffectAll(Arrive(Planned(s, u), NextTag(s, u.keepalive)), u.effects))
  }

  function Fresh(start: Tag, stop: Tag, timers: seq<Event>): State {
    State(start, stop, timers, true, [start], [], timers, [])
  }

  /** The start: timers have queued their first events, and the step at the start tag is done. */
  function Begin(start: Tag, stop: Tag, timers: seq<Event>, effects: seq<Effect>): State {
    Judge(AffectAll(Fresh(start, stop, timers), effects))
  }

  ghost predicate CanBegin(start: Tag, stop: Tag, timers: seq<Event>, effects: seq<Effect>) {
    && AtMost(start, stop) && AtMost(stop, FOREVER_TAG) && (forall e | e in timers :: Before(start, e.tag) && AtMost(e.tag, stop))
    && AllLegal(Fresh(start, stop, timers), effects)
  }

  ghost predicate IsRun(states: seq<State>, turns: seq<Turn>) {
    && |states| == |turns| + 1
    && (exists start, stop, timers, effects ::
          CanBegin(start, stop, timers, effects) && states[0] == Begin(start, stop, timers, effects))
    && forall i | 0 <= i < |turns| :: Enabled(states[i], turns[i]) && states[i + 1] == Next(states[i], turns[i])
  }

  // ---- the invariant ----

  ghost predicate Ahead(queue: seq<Event>, t: Tag) { forall e | e in queue :: Before(t, e.tag) }

  ghost predicate Increasing(tags: seq<Tag>) { forall i, j | 0 <= i < j < |tags| :: Before(tags[i], tags[j]) }

  ghost predicate OwnTags(popped: seq<(Event, Tag)>, tags: seq<Tag>) {
    forall i | 0 <= i < |popped| :: popped[i].0.tag == popped[i].1 && popped[i].1 in tags
  }

  ghost function Events(popped: seq<(Event, Tag)>): seq<Event> {
    seq(|popped|, i requires 0 <= i < |popped| => popped[i].0)
  }

  /** Every event ever queued is queued still, popped or withdrawn. */
  ghost predicate Balanced(s: State) {
    multiset(s.inserted) == multiset(s.queue) + multiset(Events(s.popped)) + multiset(s.withdrawn)
  }

  /** What holds within a step as well. */
  ghost predicate Steady(s: State) {
    && Ahead(s.queue, s.current)
    && s.tags != [] && s.tags[|s.tags| - 1] == s.current && Increasing(s.tags)
    && AtMost(s.current, s.stop) && AtMost(s.stop, FOREVER_TAG)
    && OwnTags(s.popped, s.tags)
    && Balanced(s)
  }

  ghost predicate Inv(s: State) {
    Steady(s) && (s.running <==> Before(s.current, s.stop))
  }

  /** The stop tag is only ever lowered, and to a tag still ahead. */
  ghost predicate StopDrops(a: State, b: State) {
    b.stop == a.stop || (Before(b.stop, a.stop) && Before(a.current, b.stop))
  }

  lemma {:induction false} MinusIs(queue: seq<Event>, e: Event)
    requires e in queue
    ensures multiset(queue) == multiset(Minus(queue, e)) + multiset{e}
    ensures forall x | x in Minus(queue, e) :: x in queue
  {
    var tail := queue[1..];
    assert queue == [queue[0]] + tail;
    if queue[0] != e { MinusIs(tail, e); }
  }

  lemma {:induction false} ExchangeIs(queue: seq<Event>, e: Event, other: Event)
    requires e in queue
    ensures multiset(Exchange(queue, e, other)) == multiset(Minus(queue, e)) + multiset{other}
    ensures forall x | x in Exchange(queue, e, other) :: x in queue || x == other
  {
    var tail := queue[1..];
    assert queue == [queue[0]] + tail;
    if queue[0] == e {
      assert Exchange(queue, e, other) == [other] + tail;
    } else {
      ExchangeIs(tail, e, other);
      assert Exchange(queue, e, other) == [queue[0]] + Exchange(tail, e, other);
      assert Minus(queue, e) == [queue[0]] + Minus(tail, e);
    }
  }

  /** What one effect does to the queue and the books. */
  lemma AffectQueue(s: State, f: Effect)
    requires Ahead(s.queue, s.current) && Legal(s, f) && Balanced(s)
    ensures Ahead(Affect(s, f).queue, s.current) && Balanced(Affect(s, f))
  {
    match f
    case Insert(_) =>
    case Withdraw(e) => MinusIs(s.queue, e);
    case Renew(e, other) =>
      MinusIs(s.queue, e);
      ExchangeIs(s.queue, e, other);
    case RequestStop =>
  }

  lemma AffectOneKeeps(s: State, f: Effect)
    requires Steady(s) && Legal(s, f)
    ensures var r := Affect(s, f);
      Steady(r) && r.current == s.current && StopDrops(s, r) && (Before(s.current, s.stop) ==> Before(r.current, r.stop))
  {
    AffectQueue(s, f);
  }

  lemma {:induction false} AffectKeeps(s: State, fs: seq<Effect>)
    requires Steady(s) && AllLegal(s, fs)
    ensures var r := AffectAll(s, fs);
      Steady(r) && r.current == s.current && r.running == s.running && r.tags == s.tags && StopDrops(s, r)
      && (Before(s.current, s.stop) ==> Before(r.current, r.stop))
    decreases |fs|
  {
    if fs != [] {
      AffectOneKeeps(s, fs[0]);
      AffectKeeps(Affect(s, fs[0]), fs[1..]);
    }
  }

  lemma {:induction false} Split(queue: seq<Event>, t: Tag)
    ensures multiset(queue) == multiset(AtTag(queue, t)) + multiset(Kept(queue, t))
    ensures forall e | e in AtTag(queue, t) :: e in queue && e.tag == t
    ensures forall e | e in Kept(queue, t) :: e in queue && e.tag != t
  {
    if queue != [] {
      Split(queue[1..], t);
      assert queue == [queue[0]] + queue[1..];
    }
  }

  /** The next tag lies ahead, and no queued event before it. */
  lemma NextTagIsNext(s: State, keepalive: bool)
    requires Inv(s) && s.running
    ensures var t := NextTag(s, keepalive);
      Before(s.current, t) && AtMost(t, StopNow(s, keepalive)) && forall e | e in s.queue :: AtMost(t, e.tag)
    ensures Before(s.current, StopNow(s, keepalive))
  {
    if s.queue != [] {
      var i :| 0 <= i < |s.queue| && s.queue[i].tag == Earliest(s.queue);
      assert s.queue[i] in s.queue;
    }
  }

  lemma ArriveKeeps(s: State, t: Tag)
    requires Steady(s) && Before(s.current, t) && AtMost(t, s.stop) && forall e | e in s.queue :: AtMost(t, e.tag)
    ensures Steady(Arrive(s, t))
  {
    Split(s.queue, t);
    StampPopped(s.popped, AtTag(s.queue, t), t, s.tags);
    Extend(s.tags, t);
  }

  lemma StampPopped(popped: seq<(Event, Tag)>, gone: seq<Event>, t: Tag, tags: seq<Tag>)
    requires OwnTags(popped, tags) && forall e | e in gone :: e.tag == t
    ensures OwnTags(popped + Stamp(gone, t), tags + [t])
    ensures multiset(Events(popped + Stamp(gone, t))) == multiset(Events(popped)) + multiset(gone)
  {
    var more, all := popped + Stamp(gone, t), tags + [t];
    assert Events(more) == Events(popped) + gone;
    assert all[|tags|] == t;
    forall i | 0 <= i < |more| ensures more[i].0.tag == more[i].1 && more[i].1 in all {
      if i >= |popped| {
        assert more[i] == (gone[i - |popped|], t) && gone[i - |popped|] in gone;
      } else {
        assert more[i] == popped[i];
      }
    }
  }

  lemma Extend(tags: seq<Tag>, t: Tag)
    requires Increasing(tags) && tags != [] && Before(tags[|tags| - 1], t)
    ensures Increasing(tags + [t])
  {
    forall i | 0 <= i < |tags| ensures Before(tags[i], t) {
      assert i < |tags| - 1 ==> Before(tags[i], tags[|tags| - 1]);
    }
  }

  lemma TurnKeeps(s: State, u: Turn)
    requires Inv(s) && Enabled(s, u)
    ensures Inv(Next(s, u)) && StopDrops(s, Next(s, u))
  {
    NextTagIsNext(s, u.keepalive);
    var planned, t := Planned(s, u), NextTag(s, u.keepalive);
    if u.interrupted {
      AffectKeeps(planned, u.effects);
    } else {
      ArriveKeeps(planned, t);
      AffectKeeps(Arrive(planned, t), u.effects);
    }
  }

  lemma {:induction false} RunKeeps(states: seq<State>, turns: seq<Turn>, n: nat)
    requires IsRun(states, turns) && n < |states|
    ensures Inv(states[n])
  {
    if n == 0 {
      var start, stop, timers, effects :|
        CanBegin(start, stop, timers, effects) && states[0] == Begin(start, stop, timers, effects);
      var s := Fresh(start, stop, timers);
      assert Events([]) == [];
      AffectKeeps(s, effects);
    } else {
      RunKeeps(states, turns, n - 1);
      TurnKeeps(states[n - 1], turns[n - 1]);
    }
  }

  // ---- the theorems ----

  /** In every run: processed tags strictly increase and never pass the stop tag, which only drops and
      only to a tag still ahead; queued events lie ahead; events are popped at their own tags. */
  lemma TagsAdvance(states: seq<State>, turns: seq<Turn>, n: nat)
    requires IsRun(states, turns) && n < |states|
    ensures Increasing(states[n].tags) && forall t | t in states[n].tags :: AtMost(t, states[n].stop)
    ensures Ahead(states[n].queue, states[n].current) && OwnTags(states[n].popped, states[n].tags)
    ensures n > 0 ==> StopDrops(states[n - 1], states[n])
  {
    assert Inv(states[n]) by { RunKeeps(states, turns, n); }
    TagsUpToStop(states[n].tags, states[n].stop);
    if n > 0 { StopOnlyDrops(states, turns, n); }
  }

  // ---- when the stop tag drops, and where a turn goes ----

  ghost predicate IsLeast(t: Tag, tags: set<Tag>) { t in tags && forall u | u in tags :: AtMost(t, u) }

  lemma {:induction false} StopAfter(s: State, fs: seq<Effect>)
    ensures var r := AffectAll(s, fs);
      && r.current == s.current && r.running == s.running
      && IsLeast(r.stop, {s.stop} + if RequestStop in fs then {Tag(s.current.time, s.current.microstep + 1)} else {})
    decreases |fs|
  {
    if fs != [] {
      StopAfter(Affect(s, fs[0]), fs[1..]);
      assert RequestStop in fs <==> fs[0] == RequestStop || RequestStop in fs[1..];
    }
  }

  /** The stop tags a turn has to choose from: the one so far, the next microstep if nothing is queued
      and keepalive is off, and the microstep after the tag in progress if a stop was requested. */
  ghost function StopTags(s: State, u: Turn, r: State): set<Tag> {
    {s.stop}
    + (if s.queue == [] && !u.keepalive then {Tag(s.current.time, s.current.microstep + 1)} else {})
    + if RequestStop in u.effects then {Tag(r.current.time, r.current.microstep + 1)} else {}
  }

  lemma TurnStops(s: State, u: Turn)
    ensures IsLeast(Next(s, u).stop, StopTags(s, u, Next(s, u)))
    ensures u.interrupted ==> Next(s, u).current == s.current
    ensures !u.interrupted ==> Next(s, u).current == NextTag(s, u.keepalive)
  {
    var planned := Planned(s, u);
    StopAfter(if u.interrupted then planned else Arrive(planned, NextTag(s, u.keepalive)), u.effects);
  }

  lemma NextTagIsLeast(s: State, keepalive: bool)
    requires AtMost(s.stop, FOREVER_TAG)
    ensures var soon := if s.queue == [] && !keepalive then {Tag(s.current.time, s.current.microstep + 1)} else {};
      IsLeast(NextTag(s, keepalive), {s.stop} + soon + set e | e in s.queue :: e.tag)
  {
    if s.queue != [] {
      var i :| 0 <= i < |s.queue| && s.queue[i].tag == Earliest(s.queue);
      assert s.queue[i] in s.queue;
    }
  }

  /** In every turn of every run the stop tag becomes the least of its candidates and nothing else:
      without a request, with keepalive or with something queued, it stays. An uninterrupted turn moves
      to the least of the queued tags and the stop tag as it is then, an interrupted one stays. */
  lemma StopTagExactly(states: seq<State>, turns: seq<Turn>, n: nat)
    requires IsRun(states, turns) && n < |turns|
    ensures var s, u, r := states[n], turns[n], states[n + 1];
      var soon := Tag(s.current.time, s.current.microstep + 1);
      var planned := {s.stop} + if s.queue == [] && !u.keepalive then {soon} else {};
      && IsLeast(r.stop, planned + if RequestStop in u.effects then {Tag(r.current.time, r.current.microstep + 1)} else {})
      && (if u.interrupted then r.current == s.current else IsLeast(r.current, planned + set e | e in s.queue :: e.tag))
      && (r.running <==> Before(r.current, r.stop))
  {
    RunKeeps(states, turns, n);
    RunKeeps(states, turns, n + 1);
    TurnStops(states[n], turns[n]);
    NextTagIsLeast(states[n], turns[n].keepalive);
  }

  /** Without keepalive an uninterrupted turn that finds nothing queued is the last, one microstep on;
      with keepalive it goes to the stop tag. */
  lemma EmptyQueueEnds(states: seq<State>, turns: seq<Turn>, n: nat)
    requires IsRun(states, turns) && n < |turns| && states[n].queue == [] && !turns[n].interrupted
    ensures var s, r := states[n], states[n + 1];
      && !r.running
      && r.current == r.stop == if turns[n].keepalive then s.stop else Tag(s.current.time, s.current.microstep + 1)
  {
    var s := states[n];
    RunKeeps(states, turns, n);
    TurnStops(s, turns[n]);
    StopTagExactly(states, turns, n);
  }

  lemma TagsUpToStop(tags: seq<Tag>, stop: Tag)
    requires Increasing(tags) && tags != [] && AtMost(tags[|tags| - 1], stop)
    ensures forall t | t in tags :: AtMost(t, stop)
  {
    forall i | 0 <= i < |tags| ensures AtMost(tags[i], stop) {
      assert i < |tags| - 1 ==> Before(tags[i], tags[|tags| - 1]);
    }
  }

  lemma StopOnlyDrops(states: seq<State>, turns: seq<Turn>, n: nat)
    requires IsRun(states, turns) && 0 < n < |states|
    ensures StopDrops(states[n - 1], states[n])
  {
    RunKeeps(states, turns, n - 1);
    TurnKeeps(states[n - 1], turns[n - 1]);
  }

  /** A run that has ended has ended exactly at the stop tag. Nothing queued for a tag up to it is left:
      such events were popped, each at its own tag, or withdrawn; and no other event was popped. */
  lemma EndsAtTheStopTag(states: seq<State>, turns: seq<Turn>, n: nat)
    requires IsRun(states, turns) && n < |states| && !states[n].running
    ensures states[n].current == states[n].stop
    ensures forall e | e in states[n].queue :: Before(states[n].stop, e.tag)
    ensures forall e: Event | AtMost(e.tag, states[n].stop) ::
              multiset(states[n].inserted)[e] == multiset(Events(states[n].popped))[e] + multiset(states[n].withdrawn)[e]
    ensures forall e: Event | Before(states[n].stop, e.tag) :: multiset(Events(states[n].popped))[e] == 0
  {
    RunKeeps(states, turns, n);
    TagsAdvance(states, turns, n);
    BooksAtTheEnd(states[n]);
  }

  lemma BooksAtTheEnd(s: State)
    requires Balanced(s) && Ahead(s.queue, s.stop) && OwnTags(s.popped, s.tags) && forall t | t in s.tags :: AtMost(t, s.stop)
    ensures forall e: Event | AtMost(e.tag, s.stop) ::
              multiset(s.inserted)[e] == multiset(Events(s.popped))[e] + multiset(s.withdrawn)[e]
    ensures forall e: Event | Before(s.stop, e.tag) :: multiset(Events(s.popped))[e] == 0
  {
    forall i | 0 <= i < |s.popped| ensures AtMost(Events(s.popped)[i].tag, s.stop) { assert s.popped[i].1 in s.tags; }
    forall e: Event | AtMost(e.tag, s.stop)
      ensures multiset(s.inserted)[e] == multiset(Events(s.popped))[e] + multiset(s.withdrawn)[e]
    {
      assert e !in multiset(s.queue);
    }
    forall e: Event | Before(s.stop, e.tag) ensures multiset(Events(s.popped))[e] == 0 {
      assert e !in multiset(Events(s.popped));
    }
  }

  /** _lf_advance_tag is never called wrongly: neither of its two error exits is taken. */
  lemma AdvanceNeverFails(states: seq<State>, turns: seq<Turn>, n: nat, keepalive: bool)
    requires IsRun(states, turns) && n < |states| && states[n].running
    ensures var t := NextTag(states[n], keepalive);
      Before(states[n].current, t) && !Before(Earliest(states[n].queue), t)
  {
    RunKeeps(states, turns, n);
    NextTagIsNext(states[n], keepalive);
  }
}
