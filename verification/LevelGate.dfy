/** The federate's level gate under centralized coordination (core/federated/federate.c): the maximum
    level allowed to advance (MLAA) holds a tag back at the level of a port whose status is unknown. */
module LevelGate {
  import opened Tags

  const NO_LIMIT: int := 0x7FFF_FFFF

  /** A network input port; inCycle marks those on a zero-delay cycle. */
  datatype Port = Port(level: nat, isPhysical: bool, inCycle: bool)

  datatype Grant = Grant(tag: Tag, provisional: bool)

  /** known holds last_known_status_tag of each port, last the latest grant, grants all received. */
  datatype State = State(current: Tag, known: seq<Tag>, last: Grant, mlaa: int, grants: seq<Grant>)

  /** LF_LEVEL is the low 16 bits of a reaction index. */
  ghost predicate Valid(ports: seq<Port>) { forall i | 0 <= i < |ports| :: ports[i].level < 0x1_0000 }

  /** The grant lets the current tag complete. */
  predicate Lets(g: Grant, current: Tag) {
    Before(current, g.tag) || (current == g.tag && !g.provisional)
  }

  /** The port holds the current tag back. */
  predicate Holds(p: Port, known: Tag, current: Tag) { p.inCycle && !p.isPhysical && Before(known, current) }

  function Min(a: int, b: int): int { if a < b then a else b }

  function PortsLimit(ports: seq<Port>, known: seq<Tag>, current: Tag, n: nat): (limit: int)
    requires |known| == |ports| && n <= |ports|
  {
    if n == 0 then NO_LIMIT
    else
      var m := PortsLimit(ports, known, current, n - 1);
      if Holds(ports[n - 1], known[n - 1], current) then Min(m, ports[n - 1].level) else m
  }

  /** lf_update_max_level. */
  function MaxLevel(ports: seq<Port>, known: seq<Tag>, current: Tag, g: Grant): int
    requires |known| == |ports|
  {
    if Lets(g, current) then NO_LIMIT else PortsLimit(ports, known, current, |ports|)
  }

  // ---- steps ----

  datatype Step =
    | ReceiveTag(t: Tag)
    | ReceivePtag(t: Tag)
    | PortStatus(port: nat, t: Tag)      // a message or an absent message
    | Advance(t: Tag)                    // the start of a new tag step
    | Refresh                            // after popping the events of the tag

  predicate Shaped(ports: seq<Port>, s: State) { |s.known| == |ports| }

  predicate Enabled(ports: seq<Port>, s: State, e: Step) {
    match e
    case ReceivePtag(t) => !RefusesPtag(s.last, t)      // otherwise the federate exits
    case PortStatus(p, _) => p < |ports|
    case Advance(t) => Before(s.current, t)
    case _ => true
  }

  predicate RefusesPtag(last: Grant, t: Tag) { Before(t, last.tag) || (t == last.tag && !last.provisional) }

  /** update_last_known_status_on_input_ports: never rolled back. */
  function RaiseAll(known: seq<Tag>, t: Tag): (r: seq<Tag>)
    ensures |r| == |known| && forall i | 0 <= i < |r| :: AtMost(known[i], r[i]) && AtMost(t, r[i]) && r[i] in {known[i], t}
  {
    seq(|known|, i requires 0 <= i < |known| => if AtMost(known[i], t) then t else known[i])
  }

  predicate AnyRaised(known: seq<Tag>, t: Tag) { exists i :: 0 <= i < |known| && AtMost(known[i], t) }

  function TagStep(ports: seq<Port>, s: State, t: Tag): (r: State)
    requires Shaped(ports, s)
  {
    var known := RaiseAll(s.known, t);
    s.(known := known,
       mlaa := if AnyRaised(s.known, t) then MaxLevel(ports, known, s.current, Grant(t, false)) else s.mlaa,
       last := if AtMost(s.last.tag, t) then Grant(t, false) else s.last,
       grants := s.grants + [Grant(t, false)])
  }

  function PtagStep(ports: seq<Port>, s: State, t: Tag): State
    requires Shaped(ports, s)
  {
    var g := Grant(t, true);
    s.(last := g, mlaa := MaxLevel(ports, s.known, s.current, g), grants := s.grants + [g])
  }

  /** update_last_known_status_on_input_port: a late tag counts as the current one, a repeated one as
      the next microstep. */
  function StatusTag(current: Tag, known: Tag, t: Tag): (r: Tag)
    ensures AtMost(known, r)
  {
    var u := if Before(t, current) then current else t;
    if Compare(u, known) == 0 then NextMicrostep(u) else if Before(known, u) then u else known
  }

  function StatusStep(ports: seq<Port>, s: State, p: nat, t: Tag): State
    requires Shaped(ports, s) && p < |ports|
  {
    var u := if Before(t, s.current) then s.current else t;
    if Before(u, s.known[p]) then s
    else
      var known := s.known[p := StatusTag(s.current, s.known[p], t)];
      s.(known := known, mlaa := MaxLevel(ports, known, s.current, s.last))
  }

  function Next(ports: seq<Port>, s: State, e: Step): (r: State)
    requires Shaped(ports, s) && Enabled(ports, s, e)
    ensures Shaped(ports, r)
  {
    match e
    case ReceiveTag(t) => TagStep(ports, s, t)
    case ReceivePtag(t) => PtagStep(ports, s, t)
    case PortStatus(p, t) => StatusStep(ports, s, p, t)
    case Advance(t) => s.(current := t, mlaa := MaxLevel(ports, s.known, t, s.last))
    case Refresh => s.(mlaa := MaxLevel(ports, s.known, s.current, s.last))
  }

  /** After start-up: any tags known, one grant (perhaps NEVER) and the limit computed. */
  ghost predicate Begins(ports: seq<Port>, s: State) {
    && Shaped(ports, s) && s.grants == [s.last] && s.mlaa == MaxLevel(ports, s.known, s.current, s.last)
  }

  ghost predicate IsRun(ports: seq<Port>, states: seq<State>, steps: seq<Step>) {
    && |states| == |steps| + 1 && Begins(ports, states[0])
    && forall i | 0 <= i < |steps| ::
         Shaped(ports, states[i]) && Enabled(ports, states[i], steps[i]) && states[i + 1] == Next(ports, states[i], steps[i])
  }

  /** lf_stall_advance_level_federation_locked lets execution past the level. */
  predicate Passes(s: State, level: nat) { level < s.mlaa }

  // ---- the theorems ----

  /** The limit is exact: it lets a level pass iff the grant lets the tag complete or no port at or
      below the level holds it back. */
  lemma {:induction false} PortsLimitIff(ports: seq<Port>, known: seq<Tag>, current: Tag, n: nat, level: nat)
    requires |known| == |ports| && n <= |ports| && level < NO_LIMIT
    ensures level < PortsLimit(ports, known, current, n) <==>
            forall i | 0 <= i < n && Holds(ports[i], known[i], current) :: level < ports[i].level
  {
    if n > 0 { PortsLimitIff(ports, known, current, n - 1, level); }
  }

  lemma LimitIff(ports: seq<Port>, known: seq<Tag>, current: Tag, g: Grant, level: nat)
    requires |known| == |ports| && level < NO_LIMIT
    ensures level < MaxLevel(ports, known, current, g) <==>
            Lets(g, current) || forall i | 0 <= i < |ports| && Holds(ports[i], known[i], current) :: level < ports[i].level
  {
    PortsLimitIff(ports, known, current, |ports|, level);
  }

  /** A grant for the current tag has come, or the limit is no higher than any port that holds. */
  ghost predicate Justified(ports: seq<Port>, s: State)
    requires Shaped(ports, s)
  {
    || (exists i :: 0 <= i < |s.grants| && Lets(s.grants[i], s.current))
    || (forall i | 0 <= i < |ports| && Holds(ports[i], s.known[i], s.current) :: s.mlaa <= ports[i].level)
  }

  ghost predicate Inv(ports: seq<Port>, s: State) {
    Shaped(ports, s) && s.last in s.grants && Justified(ports, s)
  }

  lemma LimitIsBelow(ports: seq<Port>, known: seq<Tag>, current: Tag, g: Grant)
    requires |known| == |ports| && Valid(ports) && !Lets(g, current)
    ensures forall i | 0 <= i < |ports| && Holds(ports[i], known[i], current) :: MaxLevel(ports, known, current, g) <= ports[i].level
  {
    forall i | 0 <= i < |ports| && Holds(ports[i], known[i], current) ensures MaxLevel(ports, known, current, g) <= ports[i].level {
      LimitIff(ports, known, current, g, ports[i].level);
    }
  }

  lemma Recomputed(ports: seq<Port>, s: State, g: Grant)
    requires Shaped(ports, s) && Valid(ports) && g in s.grants && s.mlaa == MaxLevel(ports, s.known, s.current, g)
    ensures Justified(ports, s)
  {
    if !Lets(g, s.current) { LimitIsBelow(ports, s.known, s.current, g); }
  }

  lemma TagKeeps(ports: seq<Port>, s: State, t: Tag)
    requires Valid(ports) && Inv(ports, s)
    ensures Inv(ports, TagStep(ports, s, t))
  {
    var r := TagStep(ports, s, t);
    assert r.grants[|s.grants|] == Grant(t, false);
    if AnyRaised(s.known, t) {
      Recomputed(ports, r, Grant(t, false));
    } else {
      forall i | 0 <= i < |ports| ensures r.known[i] == s.known[i] { assert !AtMost(s.known[i], t); }
      if exists i :: 0 <= i < |s.grants| && Lets(s.grants[i], s.current) {
        var i :| 0 <= i < |s.grants| && Lets(s.grants[i], s.current);
        assert Lets(r.grants[i], r.current);
      }
    }
  }

  lemma StepKeeps(ports: seq<Port>, s: State, e: Step)
    requires Valid(ports) && Inv(ports, s) && Enabled(ports, s, e)
    ensures Inv(ports, Next(ports, s, e))
    ensures forall i | 0 <= i < |ports| :: AtMost(s.known[i], Next(ports, s, e).known[i])
  {
    match e
    case ReceiveTag(t) => TagKeeps(ports, s, t);
    case ReceivePtag(t) =>
      var r := PtagStep(ports, s, t);
      assert r.grants[|s.grants|] == r.last;
      Recomputed(ports, r, r.last);
    case PortStatus(p, t) =>
      var u := if Before(t, s.current) then s.current else t;
      if !Before(u, s.known[p]) { Recomputed(ports, StatusStep(ports, s, p, t), s.last); }
    case Advance(t) => Recomputed(ports, Next(ports, s, e), s.last);
    case Refresh => Recomputed(ports, Next(ports, s, e), s.last);
  }

  lemma {:induction false} RunKeeps(ports: seq<Port>, states: seq<State>, steps: seq<Step>, n: nat)
    requires Valid(ports) && IsRun(ports, states, steps) && n < |states|
    ensures Inv(ports, states[n])
  {
    if n == 0 {
      assert states[0].grants[0] == states[0].last;
      Recomputed(ports, states[0], states[0].last);
    } else {
      RunKeeps(ports, states, steps, n - 1);
      StepKeeps(ports, states[n - 1], steps[n - 1]);
    }
  }

  /** Whenever execution is let past a level, every non-physical zero-delay-cycle port of that level or
      below has a known status at or beyond the current tag, or a grant later than the current tag,
      or a final one equal to it, has been received. */
  lemma GateIsSafe(ports: seq<Port>, states: seq<State>, steps: seq<Step>, n: nat, level: nat)
    requires Valid(ports) && IsRun(ports, states, steps) && n < |states| && Passes(states[n], level)
    ensures var s := states[n];
      && Shaped(ports, s)
      && (|| (forall i | 0 <= i < |ports| && ports[i].inCycle && !ports[i].isPhysical && ports[i].level <= level ::
                AtMost(s.current, s.known[i]))
          || (exists g :: g in s.grants && (Before(s.current, g.tag) || (s.current == g.tag && !g.provisional))))
  {
    RunKeeps(ports, states, steps, n);
    var s := states[n];
    if i :| 0 <= i < |s.grants| && Lets(s.grants[i], s.current) {
      assert s.grants[i] in s.grants;
    }
  }

  // ---- the gate is not too low either ----

  /** The limit is that of the latest grant and of what is known now. */
  predicate Exact(ports: seq<Port>, s: State) {
    Shaped(ports, s) && s.mlaa == MaxLevel(ports, s.known, s.current, s.last)
  }

  lemma {:induction false} NobodyHolds(ports: seq<Port>, known: seq<Tag>, current: Tag, n: nat)
    requires |known| == |ports| && n <= |ports| && forall i | 0 <= i < n :: !Holds(ports[i], known[i], current)
    ensures PortsLimit(ports, known, current, n) == NO_LIMIT
  {
    if n > 0 { NobodyHolds(ports, known, current, n - 1); }
  }

  /** A TAG from before the current tag, after a grant that lets the current tag complete: its recomputation
      forgets that grant if a port is not known up to the current tag and some port is raised. */
  ghost predicate Outdated(ports: seq<Port>, s: State, e: Step)
    requires Shaped(ports, s)
  {
    && e.ReceiveTag? && Before(e.t, s.current)
    && (Before(s.current, s.last.tag) || (s.current == s.last.tag && !s.last.provisional))
    && (exists i :: 0 <= i < |ports| && AtMost(s.known[i], e.t))
    && (exists i :: 0 <= i < |ports| && ports[i].inCycle && !ports[i].isPhysical && Before(s.known[i], s.current))
  }

  lemma TagIsExact(ports: seq<Port>, s: State, t: Tag)
    requires Valid(ports) && Exact(ports, s)
    ensures Exact(ports, TagStep(ports, s, t)) <==> !Outdated(ports, s, ReceiveTag(t))
  {
    var r := TagStep(ports, s, t);
    if AnyRaised(s.known, t) {
      if AtMost(s.last.tag, t) || Lets(Grant(t, false), s.current) || !Lets(s.last, s.current) {
        assert !Outdated(ports, s, ReceiveTag(t));
      } else if i :| 0 <= i < |ports| && Holds(ports[i], s.known[i], s.current) {
        assert Holds(ports[i], r.known[i], s.current);
        LimitIsBelow(ports, r.known, s.current, Grant(t, false));
      } else {
        NobodyHolds(ports, r.known, s.current, |ports|);
      }
    } else {
      TagUnseen(ports, s, t);
    }
  }

  /** A TAG that raises no port finds the limit as it should be. */
  lemma TagUnseen(ports: seq<Port>, s: State, t: Tag)
    requires Exact(ports, s) && !AnyRaised(s.known, t)
    ensures Exact(ports, TagStep(ports, s, t)) && TagStep(ports, s, t).known == s.known
  {
    var known := RaiseAll(s.known, t);
    forall i | 0 <= i < |ports| ensures known[i] == s.known[i] && Before(t, s.known[i]) { assert !AtMost(s.known[i], t); }
    assert known == s.known;
    if Lets(Grant(t, false), s.current) { NobodyHolds(ports, s.known, s.current, |ports|); }
  }

  /** Every step keeps the limit exact unless it is an outdated TAG, and then it does not. */
  lemma ExactIff(ports: seq<Port>, s: State, e: Step)
    requires Valid(ports) && Exact(ports, s) && Enabled(ports, s, e)
    ensures Exact(ports, Next(ports, s, e)) <==> !Outdated(ports, s, e)
  {
    if e.ReceiveTag? { TagIsExact(ports, s, e.t); }
  }

  /** Over any run without outdated TAGs a level is let past exactly when the latest grant lets the
      current tag complete, or every port at or below the level is known up to it. */
  lemma {:induction false} GateOpensIff(ports: seq<Port>, states: seq<State>, steps: seq<Step>, n: nat, level: nat)
    requires Valid(ports) && IsRun(ports, states, steps) && n < |states| && level < NO_LIMIT
    requires forall i | 0 <= i < n :: !Outdated(ports, states[i], steps[i])
    ensures Exact(ports, states[n])
    ensures var s := states[n];
      Passes(s, level) <==>
        || Before(s.current, s.last.tag) || (s.current == s.last.tag && !s.last.provisional)
        || forall i | 0 <= i < |ports| && ports[i].level <= level && ports[i].inCycle && !ports[i].isPhysical ::
             AtMost(s.current, s.known[i])
  {
    if n > 0 {
      GateOpensIff(ports, states, steps, n - 1, level);
      ExactIff(ports, states[n - 1], steps[n - 1]);
    }
    LimitIff(ports, states[n].known, states[n].current, states[n].last, level);
  }

  /** Whatever happened before, a PTAG, a new tag, a refresh or a port status that counts sets it right. */
  lemma SetRight(ports: seq<Port>, s: State, e: Step)
    requires Shaped(ports, s) && Enabled(ports, s, e)
    requires e.ReceivePtag? || e.Advance? || e.Refresh?
             || (e.PortStatus? && !(Before(e.t, s.known[e.port]) && Before(s.current, s.known[e.port])))
    ensures Exact(ports, Next(ports, s, e))
  {
  }

  /** The status of a port counts up to the tag told and at least up to the current one; a tag told again
      counts one microstep further; nothing is taken back, and no other port is touched. */
  lemma StatusCounts(ports: seq<Port>, s: State, p: nat, t: Tag)
    requires Shaped(ports, s) && p < |ports|
    ensures var known, was, told := StatusStep(ports, s, p, t).known, s.known[p], if Before(t, s.current) then s.current else t;
      && AtMost(told, known[p]) && (Before(was, told) ==> known[p] == told) && (Before(told, was) ==> known[p] == was)
      && (told == was ==> known[p] == Tag(was.time, was.microstep + 1))
      && known == s.known[p := known[p]] && !Holds(ports[p], known[p], s.current)
  {
  }

  const ONE_PORT := [Port(0, false, true)]

  /** It does happen: a final grant for 9, current tag 5, the port known up to 1, and a TAG for 2. The code
      reports the TAG as one to ignore, having lowered the limit to level 0. */
  lemma OutdatedTagBlocks() returns (states: seq<State>, steps: seq<Step>)
    ensures IsRun(ONE_PORT, states, steps) && |states| == 2
    ensures Passes(states[0], 0) && !Passes(states[1], 0) && states[1].last == Grant(Tag(9, 0), false) && states[1].current == Tag(5, 0)
  {
    var g := Grant(Tag(9, 0), false);
    var s := State(Tag(5, 0), [Tag(1, 0)], g, NO_LIMIT, [g]);
    steps := [ReceiveTag(Tag(2, 0))];
    states := [s, TagStep(ONE_PORT, s, Tag(2, 0))];
    assert AtMost(s.known[0], Tag(2, 0));
    assert RaiseAll(s.known, Tag(2, 0)) == [Tag(2, 0)];
    assert PortsLimit(ONE_PORT, [Tag(2, 0)], Tag(5, 0), 0) == NO_LIMIT;
    assert PortsLimit(ONE_PORT, [Tag(2, 0)], Tag(5, 0), 1) == 0;
  }

  // ---- the federate's variables ----

  class Federate {
    const ports: seq<Port>
    var current: Tag
    var known: seq<Tag>
    var lastTag: Tag
    var provisional: bool
    var mlaa: int
    ghost var grants: seq<Grant>

    ghost function Abs(): State
      reads this
    {
      State(current, known, Grant(lastTag, provisional), mlaa, grants)
    }

    constructor (ports: seq<Port>, start: Tag)
      ensures this.ports == ports && Begins(ports, Abs()) && current == start
    {
      this.ports := ports;
      current, lastTag, provisional := start, NEVER_TAG, false;
      known := seq(|ports|, _ => NEVER_TAG);
      mlaa := NO_LIMIT;
      grants := [Grant(NEVER_TAG, false)];
      new;
      var changed := UpdateMaxLevel(NEVER_TAG, false);
    }

    /** lf_update_max_level: whether the limit changed. */
    method UpdateMaxLevel(t: Tag, isProvisional: bool) returns (changed: bool)
      requires |known| == |ports|
      modifies this`mlaa
      ensures mlaa == MaxLevel(ports, known, current, Grant(t, isProvisional)) && changed == (mlaa != old(mlaa))
    {
      var limit, was := NO_LIMIT, mlaa;
      if Compare(current, t) < 0 || (Compare(current, t) == 0 && !isProvisional) {
        mlaa := limit;
        return mlaa != was;
      }
      for i := 0 to |ports|
        invariant limit == PortsLimit(ports, known, current, i)
      {
        if ports[i].inCycle && Compare(current, known[i]) > 0 && !ports[i].isPhysical {
          limit := if limit < ports[i].level then limit else ports[i].level;
        }
      }
      mlaa := limit;
      return mlaa != was;
    }

    /** handle_tag_advance_grant. */
    method OnTag(t: Tag)
      requires |known| == |ports|
      modifies this
      ensures Abs() == TagStep(ports, old(Abs()), t)
    {
      var notify := RaisePorts(t);
      if notify { var changed := UpdateMaxLevel(t, false); }
      if Compare(t, lastTag) >= 0 {
        lastTag := t;
        provisional := false;
      }
      grants := grants + [Grant(t, false)];
    }

    method RaisePorts(t: Tag) returns (notify: bool)
      modifies this`known
      ensures known == RaiseAll(old(known), t) && notify == AnyRaised(old(known), t)
    {
      ghost var was := known;
      notify := false;
      var i := 0;
      while i < |known|
        invariant i <= |known| == |was|
        invariant forall j | 0 <= j < |was| :: known[j] == if j < i then RaiseAll(was, t)[j] else was[j]
        invariant notify <==> exists j :: 0 <= j < i && AtMost(was[j], t)
      {
        if Compare(t, known[i]) >= 0 {
          known := known[i := t];
          notify := true;
        }
        i := i + 1;
      }
    }

    /** handle_provisional_tag_advance_grant up to the dummy event; false for the error exit. */
    method OnPtag(t: Tag) returns (ok: bool)
      requires |known| == |ports|
      modifies this
      ensures ok == !RefusesPtag(old(Abs()).last, t)
      ensures Abs() == if ok then PtagStep(ports, old(Abs()), t) else old(Abs())
    {
      if Compare(t, lastTag) < 0 || (Compare(t, lastTag) == 0 && !provisional) { return false; }
      lastTag := t;
      provisional := true;
      var changed := UpdateMaxLevel(lastTag, provisional);
      grants := grants + [Grant(t, true)];
      return true;
    }

    /** update_last_known_status_on_input_port. */
    method OnPortStatus(p: nat, t: Tag)
      requires |known| == |ports| && p < |ports|
      modifies this`known, this`mlaa
      ensures Abs() == StatusStep(ports, old(Abs()), p, t)
    {
      var u := t;
      if Compare(u, current) < 0 { u := current; }
      var comparison := Compare(u, known[p]);
      if comparison == 0 { u := Tag(u.time, u.microstep + 1); }
      if comparison >= 0 {
        known := known[p := u];
        var changed := UpdateMaxLevel(lastTag, provisional);
      }
    }

    /** The start of a tag step, with lf_reset_status_fields_on_input_port_triggers. */
    method StartStep(t: Tag)
      requires |known| == |ports| && Before(current, t)
      modifies this`current, this`mlaa
      ensures Abs() == Next(ports, old(Abs()), Advance(t))
    {
      current := t;
      var changed := UpdateMaxLevel(lastTag, provisional);
    }
  }
}
