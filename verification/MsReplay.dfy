/** Replay of a recorded run: sheds and deadline violations are read from the record, and the
    summary says whether the replay met the record exactly. */
module MsReplay {
  import opened MsTypes

  // ---- the order of keys and the sorted sets ----

  /** _ms_tag_key_cmp below zero. */
  predicate Less(a: Key, b: Key) {
    || a.elapsed < b.elapsed
    || (a.elapsed == b.elapsed && a.microstep < b.microstep)
    || (a.elapsed == b.elapsed && a.microstep == b.microstep && a.reaction < b.reaction)
    || (a.elapsed == b.elapsed && a.microstep == b.microstep && a.reaction == b.reaction && a.env < b.env)
  }

  ghost predicate Sorted(keys: seq<Key>) {
    forall i, j | 0 <= i < j < |keys| :: Less(keys[i], keys[j])
  }

  /** A replay set without positions: the recorded keys, those met, and the surplus meetings. */
  datatype Marks = Marks(keys: seq<Key>, seen: set<Key>, unexpected: nat)

  function Fresh(keys: seq<Key>): Marks { Marks(keys, {}, 0) }

  /** _ms_replay_mark_locked. */
  function Mark(m: Marks, k: Key): Marks {
    if k !in m.keys || k in m.seen then m.(unexpected := m.unexpected + 1)
    else m.(seen := m.seen + {k})
  }

  /** ms_should_skip_reaction in replay: a miss is taken back. */
  function Evaluate(m: Marks, k: Key): Marks {
    if k in m.keys then Mark(m, k) else m
  }

  predicate AllMet(m: Marks) { |m.seen| == |m.keys| && m.unexpected == 0 }

  class ReplaySet {
    var keys: seq<Key>
    var seen: seq<bool>
    var seenCount: nat
    var unexpected: nat

    ghost predicate Valid()
      reads this
    {
      Sorted(keys) && |seen| == |keys| && seenCount == |SeenKeys(keys, seen)|
    }

    ghost function Abs(): Marks
      reads this
      requires Valid()
    {
      Marks(keys, SeenKeys(keys, seen), unexpected)
    }

    constructor (recorded: seq<Key>)
      requires Sorted(recorded)
      ensures Valid() && Abs() == Fresh(recorded)
    {
      keys := recorded;
      seen := seq(|recorded|, _ => false);
      seenCount := 0;
      unexpected := 0;
    }

    /** bsearch over the sorted keys; the length of the keys stands for NULL. */
    method Find(k: Key) returns (at: nat)
      requires Valid()
      ensures at <= |keys|
      ensures at < |keys| ==> keys[at] == k
      ensures at < |keys| <==> k in keys
    {
      var lo, hi := 0, |keys|;
      while lo < hi
        invariant 0 <= lo <= hi <= |keys|
        invariant forall i | 0 <= i < lo :: Less(keys[i], k)
        invariant forall i | hi <= i < |keys| :: Less(k, keys[i])
      {
        var mid := (lo + hi) / 2;
        if Less(k, keys[mid]) {
          hi := mid;
        } else if Less(keys[mid], k) {
          lo := mid + 1;
        } else {
          return mid;
        }
      }
      return |keys|;
    }

    method MarkKey(k: Key) returns (hit: bool)
      requires Valid()
      modifies this`seen, this`seenCount, this`unexpected
      ensures Valid() && Abs() == Mark(old(Abs()), k)
      ensures hit <==> k in keys
    {
      var at := Find(k);
      hit := at < |keys|;
      if hit { SeenAt(keys, seen, at); }
      if !hit || seen[at] {
        if !hit { SeenAreKeys(keys, seen, k); }
        unexpected := unexpected + 1;
        return;
      }
      SeenMore(keys, seen, at);
      seen := seen[at := true];
      seenCount := seenCount + 1;
    }

    /** ms_should_skip_reaction while a replay is active. */
    method ShouldSkip(k: Key) returns (hit: bool)
      requires Valid()
      modifies this`seen, this`seenCount, this`unexpected
      ensures Valid() && Abs() == Evaluate(old(Abs()), k)
      ensures hit <==> k in keys
    {
      hit := MarkKey(k);
      if !hit { unexpected := unexpected - 1; }
    }
  }

  ghost function SeenKeys(keys: seq<Key>, seen: seq<bool>): set<Key>
    requires |keys| == |seen|
  {
    set i | 0 <= i < |keys| && seen[i] :: keys[i]
  }

  lemma SeenAreKeys(keys: seq<Key>, seen: seq<bool>, k: Key)
    requires |keys| == |seen|
    ensures k in SeenKeys(keys, seen) ==> k in keys
  {
  }

  lemma SeenAt(keys: seq<Key>, seen: seq<bool>, at: nat)
    requires |keys| == |seen| && Sorted(keys) && at < |keys|
    ensures keys[at] in SeenKeys(keys, seen) <==> seen[at]
  {
  }

  lemma SeenMore(keys: seq<Key>, seen: seq<bool>, at: nat)
    requires |keys| == |seen| && at < |keys|
    ensures SeenKeys(keys, seen[at := true]) == SeenKeys(keys, seen) + {keys[at]}
  {
    var more := seen[at := true];
    forall k | k in SeenKeys(keys, seen) + {keys[at]} ensures k in SeenKeys(keys, more) {
      if k == keys[at] {
        assert more[at];
      } else {
        var i :| 0 <= i < |keys| && seen[i] && keys[i] == k;
        assert more[i];
      }
    }
  }

  /** ms_replay_deadline_decision: -1 leaves the comparison with physical time to the runtime. */
  method DeadlineDecision(forceX: bool, x: ReplaySet, k: Key) returns (forced: int)
    requires x.Valid()
    ensures forced == Forced(forceX, x.keys, k)
  {
    if !forceX { return -1; }
    if |x.keys| == 0 { return 0; }
    var at := x.Find(k);
    return if at < |x.keys| then 1 else 0;
  }

  /** The ok field of the replay summary of ms_shutdown. */
  method Summary(d: ReplaySet, x: ReplaySet) returns (ok: bool)
    requires d.Valid() && x.Valid()
    ensures ok <==> AllMet(d.Abs()) && AllMet(x.Abs())
  {
    ok := d.seenCount == |d.keys| && d.unexpected == 0 && x.seenCount == |x.keys| && x.unexpected == 0;
  }

  // ---- the summary, over any sequence of meetings ----

  function MarkAll(m: Marks, ks: seq<Key>): Marks {
    if ks == [] then m else Mark(MarkAll(m, ks[..|ks| - 1]), ks[|ks| - 1])
  }

  function EvaluateAll(m: Marks, ks: seq<Key>): Marks {
    if ks == [] then m else Evaluate(EvaluateAll(m, ks[..|ks| - 1]), ks[|ks| - 1])
  }

  ghost predicate Distinct(keys: seq<Key>) {
    forall i, j | 0 <= i < j < |keys| :: keys[i] != keys[j]
  }

  lemma {:induction false} DistinctCount(keys: seq<Key>)
    requires Distinct(keys)
    ensures forall k :: multiset(keys)[k] == if k in keys then 1 else 0
    ensures |set k | k in keys| == |keys|
  {
    if keys != [] {
      var init, last := keys[..|keys| - 1], keys[|keys| - 1];
      DistinctCount(init);
      assert keys == init + [last];
      assert (set k | k in keys) == (set k | k in init) + {last};
    } else {
      assert (set k | k in keys) == {};
    }
  }

  lemma SeenAll(keys: seq<Key>, seen: set<Key>)
    requires Distinct(keys) && forall k | k in seen :: k in keys
    ensures |seen| == |keys| <==> forall k | k in keys :: k in seen
  {
    DistinctCount(keys);
    var all := set k | k in keys;
    assert seen <= all;
    if |seen| == |keys| {
      if all != seen { Smaller(seen, all); }
      assert all == seen;
    }
    if forall k | k in keys :: k in seen { assert seen == all; }
  }

  lemma Smaller(a: set<Key>, b: set<Key>)
    requires a < b
    ensures |a| < |b|
  {
    assert b == a + (b - a);
  }

  /** What the marks say about the meetings of recorded keys so far. */
  ghost predicate Tally(m: Marks, keys: seq<Key>, ks: seq<Key>, strict: bool) {
    && m.keys == keys
    && (forall k :: k in m.seen <==> k in keys && k in ks)
    && (m.unexpected == 0 <==>
        (forall k | k in ks :: (k in keys ==> multiset(ks)[k] == 1) && (strict ==> k in keys)))
  }

  lemma TallyStep(m: Marks, keys: seq<Key>, ks: seq<Key>, k: Key, strict: bool)
    requires Tally(m, keys, ks, strict)
    ensures Tally(if strict then Mark(m, k) else Evaluate(m, k), keys, ks + [k], strict)
  {
    var more, m' := ks + [k], if strict then Mark(m, k) else Evaluate(m, k);
    assert forall x :: x in more <==> x in ks || x == k;
    assert forall x :: multiset(more)[x] == multiset(ks)[x] + if x == k then 1 else 0;
    if m.unexpected == 0 && m'.unexpected == 0 {
      forall x | x in more ensures (x in keys ==> multiset(more)[x] == 1) && (strict ==> x in keys) {
        if x != k { assert x in ks; }
      }
    } else if m.unexpected != 0 {
      var x :| x in ks && !((x in keys ==> multiset(ks)[x] == 1) && (strict ==> x in keys));
      assert x in more && multiset(ks)[x] >= 1;
    } else {
      assert k in more;
    }
  }

  lemma {:induction false} TallyMark(keys: seq<Key>, ks: seq<Key>)
    ensures Tally(MarkAll(Fresh(keys), ks), keys, ks, true)
  {
    if ks != [] {
      TallyMark(keys, ks[..|ks| - 1]);
      TallyStep(MarkAll(Fresh(keys), ks[..|ks| - 1]), keys, ks[..|ks| - 1], ks[|ks| - 1], true);
      assert ks == ks[..|ks| - 1] + [ks[|ks| - 1]];
    }
  }

  lemma {:induction false} TallyEvaluate(keys: seq<Key>, ks: seq<Key>)
    ensures Tally(EvaluateAll(Fresh(keys), ks), keys, ks, false)
  {
    if ks != [] {
      TallyEvaluate(keys, ks[..|ks| - 1]);
      TallyStep(EvaluateAll(Fresh(keys), ks[..|ks| - 1]), keys, ks[..|ks| - 1], ks[|ks| - 1], false);
      assert ks == ks[..|ks| - 1] + [ks[|ks| - 1]];
    }
  }

  /** The shed half of the summary: every recorded D key was evaluated exactly once. */
  lemma ShedsMetIff(keys: seq<Key>, evaluated: seq<Key>)
    requires Distinct(keys)
    ensures AllMet(EvaluateAll(Fresh(keys), evaluated)) <==> forall k | k in keys :: multiset(evaluated)[k] == 1
  {
    TallyEvaluate(keys, evaluated);
    SeenAll(keys, EvaluateAll(Fresh(keys), evaluated).seen);
  }

  /** The violation half: the violations are exactly the recorded X keys, once each. */
  lemma ViolationsMetIff(keys: seq<Key>, violated: seq<Key>)
    requires Distinct(keys)
    ensures AllMet(MarkAll(Fresh(keys), violated)) <==> multiset(violated) == multiset(keys)
  {
    var m := MarkAll(Fresh(keys), violated);
    TallyMark(keys, violated);
    SeenAll(keys, m.seen);
    DistinctCount(keys);
    if AllMet(m) {
      forall k ensures multiset(violated)[k] == multiset(keys)[k] {
        if k !in violated { assert k !in keys; }
      }
    }
    if multiset(violated) == multiset(keys) {
      forall k | k in violated ensures k in keys && multiset(violated)[k] == 1 { assert k in multiset(violated); }
      forall k | k in keys ensures k in violated { assert k in multiset(keys); }
    }
  }

  // ---- the worker's decision order (reactor_threaded.c) ----

  datatype Outcome = Ran | Skipped | Violated

  datatype Dispatch = Dispatch(key: Key, outcome: Outcome)

  function Forced(forceX: bool, xKeys: seq<Key>, k: Key): int {
    if !forceX then -1 else if k in xKeys then 1 else 0
  }

  /** _lf_worker_handle_deadline_violation_for_reaction: late is the comparison of physical time
      with the deadline, which a forced decision leaves unread. */
  predicate Misses(deadline: int, forced: int, late: bool) {
    deadline >= 0 && if forced >= 0 then forced == 1 else deadline == 0 || late
  }

  /** The outcome of a dispatch: violation first, then shedding, then the body. */
  function Decide(violated: bool, skip: bool): Outcome {
    if violated then Violated else if skip then Skipped else Ran
  }

  /** In a live run a deadline is violated exactly if it is zero, or positive and the dispatch comes more
      than that after its logical time; a violated reaction is not shed. */
  lemma LiveDeadline(xKeys: seq<Key>, k: Key, deadline: int, logical: int, physical: int, skip: bool)
    ensures Decide(Misses(deadline, Forced(false, xKeys, k), physical > logical + deadline), skip) ==
            if deadline == 0 || 0 < deadline < physical - logical then Violated else if skip then Skipped else Ran
  {
  }

  // ---- deterministic programs ----

  /** A program gives, for the outcomes so far, the dispatches of the next batch (the reactions of
      one level at one tag); deadlines are per reaction, negative for none. */
  datatype Program = Program(next: map<Key, Outcome> -> set<Key>, deadline: nat -> int)

  ghost function Outcomes(h: seq<Dispatch>): map<Key, Outcome> {
    if h == [] then map[]
    else Outcomes(h[..|h| - 1])[h[|h| - 1].key := h[|h| - 1].outcome]
  }

  ghost function Concat(batches: seq<seq<Dispatch>>): seq<Dispatch> {
    if batches == [] then [] else Concat(batches[..|batches| - 1]) + batches[|batches| - 1]
  }

  ghost function KeysOf(h: seq<Dispatch>): seq<Key> {
    seq(|h|, i requires 0 <= i < |h| => h[i].key)
  }

  /** A run of the program: each batch holds what the program asks for, in any order, and no key
      is dispatched twice. */
  ghost predicate RunOf(p: Program, batches: seq<seq<Dispatch>>) {
    batches == [] ||
    var before, batch := batches[..|batches| - 1], batches[|batches| - 1];
    && RunOf(p, before)
    && Distinct(KeysOf(batch))
    && (forall k :: k in KeysOf(batch) <==> k in p.next(Outcomes(Concat(before))))
    && (forall k | k in KeysOf(batch) :: k !in Outcomes(Concat(before)))
    && batch != []
  }

  ghost predicate CompleteRunOf(p: Program, batches: seq<seq<Dispatch>>) {
    RunOf(p, batches) && p.next(Outcomes(Concat(batches))) == {}
  }

  /** Only a reaction with a deadline can have violated one. */
  ghost predicate LiveRun(p: Program, h: seq<Dispatch>) {
    forall i | 0 <= i < |h| && h[i].outcome.Violated? :: p.deadline(h[i].key.reaction) >= 0
  }

  /** A dispatch decided by the record, whatever the physical time. */
  ghost predicate ReplayedFrom(p: Program, dKeys: seq<Key>, xKeys: seq<Key>, a: Dispatch) {
    exists late: bool ::
      a.outcome == Decide(Misses(p.deadline(a.key.reaction), Forced(true, xKeys, a.key), late), a.key in dKeys)
  }

  ghost predicate ReplayRun(p: Program, dKeys: seq<Key>, xKeys: seq<Key>, h: seq<Dispatch>) {
    forall i | 0 <= i < |h| :: ReplayedFrom(p, dKeys, xKeys, h[i])
  }

  /** The keys of the dispatches with a given outcome, in order. */
  ghost function KeysWith(h: seq<Dispatch>, o: Outcome): seq<Key> {
    if h == [] then []
    else KeysWith(h[..|h| - 1], o) + if h[|h| - 1].outcome == o then [h[|h| - 1].key] else []
  }

  /** The dispatches whose shedding is evaluated: those that did not violate. */
  ghost function Evaluated(h: seq<Dispatch>): seq<Key> {
    if h == [] then []
    else Evaluated(h[..|h| - 1]) + if h[|h| - 1].outcome.Violated? then [] else [h[|h| - 1].key]
  }
}
