/** Replaying the record of a live run of a deterministic program reproduces every outcome. */
module MsReplayTheorem {
  import opened MsTypes
  import opened MsReplay

  // ---- histories without repetition ----

  lemma {:induction false} OutcomesAppend(h: seq<Dispatch>, a: Dispatch)
    ensures Outcomes(h + [a]) == Outcomes(h)[a.key := a.outcome]
  {
    assert (h + [a])[..|h|] == h;
  }

  /** A batch of new, distinct keys adds exactly its own outcomes. */
  lemma {:induction false} OutcomesConcat(h: seq<Dispatch>, b: seq<Dispatch>)
    requires Distinct(KeysOf(b)) && forall k | k in KeysOf(b) :: k !in Outcomes(h)
    ensures forall k :: k in Outcomes(h + b) <==> k in Outcomes(h) || k in KeysOf(b)
    ensures forall k | k in Outcomes(h) :: Outcomes(h + b)[k] == Outcomes(h)[k]
    ensures forall i | 0 <= i < |b| :: b[i].key in Outcomes(h + b) && Outcomes(h + b)[b[i].key] == b[i].outcome
  {
    if b == [] {
      assert h + b == h;
    } else {
      var init, a := b[..|b| - 1], b[|b| - 1];
      assert KeysOf(b) == KeysOf(init) + [a.key];
      assert forall i | 0 <= i < |init| :: KeysOf(b)[i] == init[i].key;
      assert KeysOf(b)[|init|] == a.key;
      OutcomesConcat(h, init);
      OutcomesAppend(h + init, a);
      assert h + b == h + init + [a];
      forall i | 0 <= i < |b| ensures b[i].key in Outcomes(h + b) && Outcomes(h + b)[b[i].key] == b[i].outcome {
        if i < |init| { assert b[i] == init[i] && KeysOf(b)[i] != a.key; }
      }
    }
  }

  lemma {:induction false} BatchOutcomes(p: Program, batches: seq<seq<Dispatch>>)
    requires RunOf(p, batches) && batches != []
    ensures var before, batch := Outcomes(Concat(batches[..|batches| - 1])), batches[|batches| - 1];
      var after := Outcomes(Concat(batches));
      && (forall k :: k in after <==> k in before || k in KeysOf(batch))
      && (forall k | k in before :: after[k] == before[k])
      && (forall i | 0 <= i < |batch| :: batch[i].key in after && after[batch[i].key] == batch[i].outcome)
  {
    OutcomesConcat(Concat(batches[..|batches| - 1]), batches[|batches| - 1]);
  }

  lemma {:induction false} RunPrefix(p: Program, batches: seq<seq<Dispatch>>, n: nat)
    requires RunOf(p, batches) && n <= |batches|
    ensures RunOf(p, batches[..n])
    ensures var part, all := Outcomes(Concat(batches[..n])), Outcomes(Concat(batches));
      forall k | k in part :: k in all && all[k] == part[k]
  {
    if n < |batches| {
      var before := batches[..|batches| - 1];
      RunPrefix(p, before, n);
      assert before[..n] == batches[..n];
      BatchOutcomes(p, batches);
    } else {
      assert batches[..n] == batches;
    }
  }

  lemma {:induction false} ConcatHolds(batches: seq<seq<Dispatch>>, n: nat, i: nat)
    requires n < |batches| && i < |batches[n]|
    ensures batches[n][i] in Concat(batches)
  {
    if n < |batches| - 1 { ConcatHolds(batches[..|batches| - 1], n, i); }
  }

  lemma {:induction false} OutcomesAre(p: Program, batches: seq<seq<Dispatch>>)
    requires RunOf(p, batches)
    ensures Distinct(KeysOf(Concat(batches)))
    ensures forall k :: k in Outcomes(Concat(batches)) <==> k in KeysOf(Concat(batches))
    ensures forall a | a in Concat(batches) :: a.key in Outcomes(Concat(batches)) && Outcomes(Concat(batches))[a.key] == a.outcome
  {
    if batches != [] {
      var before, batch := batches[..|batches| - 1], batches[|batches| - 1];
      OutcomesAre(p, before);
      BatchOutcomes(p, batches);
      KeysOfConcat(Concat(before), batch);
    }
  }

  lemma {:induction false} KeysOfConcat(a: seq<Dispatch>, b: seq<Dispatch>)
    requires Distinct(KeysOf(a)) && Distinct(KeysOf(b)) && forall k | k in KeysOf(b) :: k !in KeysOf(a)
    ensures KeysOf(a + b) == KeysOf(a) + KeysOf(b) && Distinct(KeysOf(a + b))
  {
    var ab := KeysOf(a) + KeysOf(b);
    assert KeysOf(a + b) == ab;
    forall i, j | 0 <= i < j < |ab| ensures ab[i] != ab[j] {
      if i < |a| <= j { assert ab[j] in KeysOf(b) && ab[i] in KeysOf(a); }
    }
  }

  /** The keys with an outcome, and the keys evaluated, of a history without repetition. */
  lemma {:induction false} KeysWithAre(h: seq<Dispatch>, o: Outcome)
    requires Distinct(KeysOf(h))
    ensures Distinct(KeysWith(h, o)) && forall k :: k in KeysWith(h, o) <==> Dispatch(k, o) in h
  {
    if h != [] {
      var init, a := h[..|h| - 1], h[|h| - 1];
      InitKeys(h);
      KeysWithAre(init, o);
      assert h == init + [a];
    }
  }

  lemma {:induction false} EvaluatedAre(h: seq<Dispatch>)
    requires Distinct(KeysOf(h))
    ensures Distinct(Evaluated(h))
    ensures forall k :: k in Evaluated(h) <==> Dispatch(k, Ran) in h || Dispatch(k, Skipped) in h
  {
    if h != [] {
      var init, a := h[..|h| - 1], h[|h| - 1];
      InitKeys(h);
      EvaluatedAre(init);
      assert h == init + [a];
    }
  }

  lemma {:induction false} InitKeys(h: seq<Dispatch>)
    requires Distinct(KeysOf(h)) && h != []
    ensures var init, a := h[..|h| - 1], h[|h| - 1];
      Distinct(KeysOf(init)) && forall o: Outcome :: Dispatch(a.key, o) !in init
  {
    var init, a := h[..|h| - 1], h[|h| - 1];
    assert KeysOf(h) == KeysOf(init) + [a.key];
    forall i, j | 0 <= i < j < |init| ensures KeysOf(init)[i] != KeysOf(init)[j] {
      assert KeysOf(h)[i] == KeysOf(init)[i] && KeysOf(h)[j] == KeysOf(init)[j];
    }
    forall i | 0 <= i < |init| ensures init[i].key != a.key {
      assert KeysOf(h)[i] == init[i].key && KeysOf(h)[|h| - 1] == a.key;
    }
  }

  // ---- the theorem ----

  /** The sets a replay is given: the sheds and violations of a live run, in any order. */
  ghost predicate RecordOf(live: seq<Dispatch>, dKeys: seq<Key>, xKeys: seq<Key>) {
    multiset(dKeys) == multiset(KeysWith(live, Skipped)) && multiset(xKeys) == multiset(KeysWith(live, Violated))
  }

  lemma {:induction false} RecordedAre(p: Program, live: seq<seq<Dispatch>>, dKeys: seq<Key>, xKeys: seq<Key>)
    requires RunOf(p, live) && RecordOf(Concat(live), dKeys, xKeys)
    ensures Distinct(dKeys) && Distinct(xKeys)
    ensures forall k :: k in dKeys <==> Dispatch(k, Skipped) in Concat(live)
    ensures forall k :: k in xKeys <==> Dispatch(k, Violated) in Concat(live)
  {
    OutcomesAre(p, live);
    KeysWithAre(Concat(live), Skipped);
    KeysWithAre(Concat(live), Violated);
    Rearranged(KeysWith(Concat(live), Skipped), dKeys);
    Rearranged(KeysWith(Concat(live), Violated), xKeys);
  }

  lemma {:induction false} Rearranged(a: seq<Key>, b: seq<Key>)
    requires Distinct(a) && multiset(a) == multiset(b)
    ensures Distinct(b) && forall k :: k in b <==> k in a
  {
    DistinctCount(a);
    forall k ensures k in b <==> k in a { assert k in b <==> k in multiset(b); assert k in a <==> k in multiset(a); }
    DistinctByCount(b);
  }

  lemma {:induction false} DistinctByCount(b: seq<Key>)
    requires forall k :: multiset(b)[k] <= 1
    ensures Distinct(b)
  {
    if b != [] {
      var init, last := b[..|b| - 1], b[|b| - 1];
      assert b == init + [last];
      assert forall k :: multiset(init)[k] <= multiset(b)[k];
      DistinctByCount(init);
      assert multiset(init)[last] == 0;
      assert last !in multiset(init);
    }
  }

  /** One dispatch: the record forces the live outcome. */
  lemma {:induction false} SameOutcome(p: Program, live: seq<seq<Dispatch>>, dKeys: seq<Key>, xKeys: seq<Key>, a: Dispatch, b: Dispatch)
    requires RunOf(p, live) && LiveRun(p, Concat(live)) && RecordOf(Concat(live), dKeys, xKeys)
    requires a in Concat(live) && a.key == b.key && ReplayedFrom(p, dKeys, xKeys, b)
    ensures a == b
  {
    RecordedAre(p, live, dKeys, xKeys);
    OutcomesAre(p, live);
    assert forall o: Outcome | Dispatch(a.key, o) in Concat(live) :: o == a.outcome;
    assert a == Dispatch(a.key, a.outcome);
  }

  lemma {:induction false} SameBatch(p: Program, live: seq<seq<Dispatch>>, replay: seq<seq<Dispatch>>, dKeys: seq<Key>, xKeys: seq<Key>, n: nat)
    requires RunOf(p, live) && LiveRun(p, Concat(live)) && RecordOf(Concat(live), dKeys, xKeys)
    requires RunOf(p, replay) && ReplayRun(p, dKeys, xKeys, Concat(replay))
    requires n < |live| && n < |replay| && SameKeySet(live[n], replay[n])
    ensures SameSet(live[n], replay[n])
  {
    forall i | 0 <= i < |live[n]| ensures live[n][i] in replay[n] {
      assert live[n][i].key == KeysOf(live[n])[i];
      assert live[n][i].key in KeysOf(replay[n]);
      var j :| 0 <= j < |replay[n]| && KeysOf(replay[n])[j] == live[n][i].key;
      ConcatHolds(live, n, i);
      ConcatHolds(replay, n, j);
      SameOutcome(p, live, dKeys, xKeys, live[n][i], replay[n][j]);
    }
    forall j | 0 <= j < |replay[n]| ensures replay[n][j] in live[n] {
      assert replay[n][j].key == KeysOf(replay[n])[j];
      assert replay[n][j].key in KeysOf(live[n]);
      var i :| 0 <= i < |live[n]| && KeysOf(live[n])[i] == replay[n][j].key;
      ConcatHolds(live, n, i);
      ConcatHolds(replay, n, j);
      SameOutcome(p, live, dKeys, xKeys, live[n][i], replay[n][j]);
    }
  }

  ghost predicate SameKeySet(a: seq<Dispatch>, b: seq<Dispatch>) { forall k :: k in KeysOf(a) <==> k in KeysOf(b) }

  ghost predicate SameSet(a: seq<Dispatch>, b: seq<Dispatch>) { forall x :: x in a <==> x in b }

  /** From equal outcomes the program asks for equal batches. */
  lemma {:induction false} SameRequest(p: Program, a: seq<seq<Dispatch>>, b: seq<seq<Dispatch>>, n: nat)
    requires RunOf(p, a) && RunOf(p, b) && n < |a| && n < |b|
    requires Outcomes(Concat(a[..n])) == Outcomes(Concat(b[..n]))
    ensures SameKeySet(a[n], b[n])
  {
    RunPrefix(p, a, n + 1);
    RunPrefix(p, b, n + 1);
    assert a[..n + 1][..n] == a[..n] && b[..n + 1][..n] == b[..n];
    assert a[..n + 1][n] == a[n] && b[..n + 1][n] == b[n];
  }

  lemma {:induction false} SameGrowth(p: Program, a: seq<seq<Dispatch>>, b: seq<seq<Dispatch>>, n: nat)
    requires RunOf(p, a) && RunOf(p, b) && n < |a| && n < |b|
    requires Outcomes(Concat(a[..n])) == Outcomes(Concat(b[..n])) && SameSet(a[n], b[n])
    ensures Outcomes(Concat(a[..n + 1])) == Outcomes(Concat(b[..n + 1]))
  {
    RunPrefix(p, a, n + 1);
    RunPrefix(p, b, n + 1);
    assert a[..n + 1][..n] == a[..n] && b[..n + 1][..n] == b[..n];
    BatchOutcomes(p, a[..n + 1]);
    BatchOutcomes(p, b[..n + 1]);
    SameMaps(Outcomes(Concat(a[..n])), a[n], Outcomes(Concat(a[..n + 1])), b[n], Outcomes(Concat(b[..n + 1])));
  }

  /** The first n batches have had the same outcomes. */
  ghost predicate Agree(a: seq<seq<Dispatch>>, b: seq<seq<Dispatch>>, n: nat)
    requires n <= |a| && n <= |b|
  {
    Outcomes(Concat(a[..n])) == Outcomes(Concat(b[..n]))
  }

  ghost predicate SameUpTo(a: seq<seq<Dispatch>>, b: seq<seq<Dispatch>>, n: nat)
    requires n <= |a| && n <= |b|
  {
    Agree(a, b, n) && forall i | 0 <= i < n :: SameSet(a[i], b[i])
  }

  lemma {:induction false} Propagate(a: seq<seq<Dispatch>>, b: seq<seq<Dispatch>>, n: nat)
    requires n <= |a| && n <= |b| && Agree(a, b, 0)
    requires forall k | 0 <= k < n && Agree(a, b, k) :: Agree(a, b, k + 1) && SameSet(a[k], b[k])
    ensures SameUpTo(a, b, n)
  {
    if n > 0 { Propagate(a, b, n - 1); }
  }

  lemma {:induction false} SameNext(p: Program, live: seq<seq<Dispatch>>, replay: seq<seq<Dispatch>>,
                                    dKeys: seq<Key>, xKeys: seq<Key>, n: nat)
    requires RunOf(p, live) && LiveRun(p, Concat(live)) && RecordOf(Concat(live), dKeys, xKeys)
    requires RunOf(p, replay) && ReplayRun(p, dKeys, xKeys, Concat(replay))
    requires n < |live| && n < |replay| && Agree(live, replay, n)
    ensures SameSet(live[n], replay[n]) && Agree(live, replay, n + 1)
  {
    SameRequest(p, live, replay, n);
    SameBatch(p, live, replay, dKeys, xKeys, n);
    SameGrowth(p, live, replay, n);
  }

  /** Batch by batch the replay has the outcomes of the live run. */
  lemma {:induction false} SamePrefix(p: Program, live: seq<seq<Dispatch>>, replay: seq<seq<Dispatch>>,
                                      dKeys: seq<Key>, xKeys: seq<Key>, n: nat)
    requires RunOf(p, live) && LiveRun(p, Concat(live)) && RecordOf(Concat(live), dKeys, xKeys)
    requires RunOf(p, replay) && ReplayRun(p, dKeys, xKeys, Concat(replay))
    requires n <= |live| && n <= |replay|
    ensures SameUpTo(live, replay, n)
  {
    assert live[..0] == [] && replay[..0] == [];
    forall k | 0 <= k < n && Agree(live, replay, k) ensures Agree(live, replay, k + 1) && SameSet(live[k], replay[k]) {
      SameNext(p, live, replay, dKeys, xKeys, k);
    }
    Propagate(live, replay, n);
  }

  /** Two maps grown from one by the same dispatches are equal. */
  lemma {:induction false} SameMaps(m: map<Key, Outcome>, a: seq<Dispatch>, m1: map<Key, Outcome>, b: seq<Dispatch>, m2: map<Key, Outcome>)
    requires forall x :: x in a <==> x in b
    requires forall k :: k in m1 <==> k in m || k in KeysOf(a)
    requires forall k :: k in m2 <==> k in m || k in KeysOf(b)
    requires forall k | k in m :: k in m1 && k in m2 && m1[k] == m[k] && m2[k] == m[k]
    requires forall i | 0 <= i < |a| :: a[i].key in m1 && m1[a[i].key] == a[i].outcome
    requires forall i | 0 <= i < |b| :: b[i].key in m2 && m2[b[i].key] == b[i].outcome
    ensures m1 == m2
  {
    forall k ensures k in KeysOf(a) <==> k in KeysOf(b) {
      KeyIn(a, b, k);
      KeyIn(b, a, k);
    }
    forall k | k in m1 ensures m1[k] == m2[k] {
      if k !in m {
        var i :| 0 <= i < |a| && KeysOf(a)[i] == k;
        assert a[i] in b;
      }
    }
  }

  lemma {:induction false} KeyIn(a: seq<Dispatch>, b: seq<Dispatch>, k: Key)
    requires forall x | x in a :: x in b
    ensures k in KeysOf(a) ==> k in KeysOf(b)
  {
    if k in KeysOf(a) {
      var i :| 0 <= i < |a| && KeysOf(a)[i] == k;
      assert a[i] in b;
      var j :| 0 <= j < |b| && b[j] == a[i];
      assert KeysOf(b)[j] == k;
    }
  }

  /** Two complete runs have equally many batches. */
  lemma {:induction false} SameLength(p: Program, live: seq<seq<Dispatch>>, replay: seq<seq<Dispatch>>, dKeys: seq<Key>, xKeys: seq<Key>)
    requires CompleteRunOf(p, live) && LiveRun(p, Concat(live)) && RecordOf(Concat(live), dKeys, xKeys)
    requires CompleteRunOf(p, replay) && ReplayRun(p, dKeys, xKeys, Concat(replay))
    ensures |live| == |replay|
  {
    var n := if |live| < |replay| then |live| else |replay|;
    SamePrefix(p, live, replay, dKeys, xKeys, n);
    assert live[..|live|] == live && replay[..|replay|] == replay;
    if n < |replay| { MoreToDo(p, replay, n); }
    if n < |live| { MoreToDo(p, live, n); }
  }

  lemma {:induction false} MoreToDo(p: Program, batches: seq<seq<Dispatch>>, n: nat)
    requires RunOf(p, batches) && n < |batches|
    ensures p.next(Outcomes(Concat(batches[..n]))) != {}
  {
    RunPrefix(p, batches, n + 1);
    assert batches[..n + 1][..n] == batches[..n];
    var batch := batches[n];
    assert batches[..n + 1][n] == batch;
    assert KeysOf(batch)[0] in KeysOf(batch);
  }

  /** The replay theorem: the outcomes of the replay are those of the live run, dispatch by dispatch,
      for any physical times and any order within a batch, and the summary is ok. */
  lemma {:induction false} ReplayReproduces(p: Program, live: seq<seq<Dispatch>>, replay: seq<seq<Dispatch>>, dKeys: seq<Key>, xKeys: seq<Key>)
    requires CompleteRunOf(p, live) && LiveRun(p, Concat(live)) && RecordOf(Concat(live), dKeys, xKeys)
    requires CompleteRunOf(p, replay) && ReplayRun(p, dKeys, xKeys, Concat(replay))
    ensures Outcomes(Concat(replay)) == Outcomes(Concat(live))
    ensures |replay| == |live| && forall i | 0 <= i < |live| :: SameSet(live[i], replay[i])
    ensures AllMet(EvaluateAll(Fresh(dKeys), Evaluated(Concat(replay))))
    ensures AllMet(MarkAll(Fresh(xKeys), KeysWith(Concat(replay), Violated)))
  {
    SameLength(p, live, replay, dKeys, xKeys);
    SamePrefix(p, live, replay, dKeys, xKeys, |live|);
    assert live[..|live|] == live && replay[..|replay|] == replay;
    RecordIsMet(p, live, replay, dKeys, xKeys);
  }

  lemma {:induction false} RecordIsMet(p: Program, live: seq<seq<Dispatch>>, replay: seq<seq<Dispatch>>, dKeys: seq<Key>, xKeys: seq<Key>)
    requires RunOf(p, live) && RecordOf(Concat(live), dKeys, xKeys) && RunOf(p, replay)
    requires Outcomes(Concat(replay)) == Outcomes(Concat(live))
    ensures AllMet(EvaluateAll(Fresh(dKeys), Evaluated(Concat(replay))))
    ensures AllMet(MarkAll(Fresh(xKeys), KeysWith(Concat(replay), Violated)))
  {
    RecordedAre(p, live, dKeys, xKeys);
    SameDispatches(p, live, replay);
    OutcomesAre(p, replay);
    ShedsAreMet(Concat(replay), dKeys);
    ViolationsAreMet(Concat(replay), xKeys);
  }

  lemma {:induction false} ShedsAreMet(h: seq<Dispatch>, dKeys: seq<Key>)
    requires Distinct(KeysOf(h)) && Distinct(dKeys) && forall k :: k in dKeys <==> Dispatch(k, Skipped) in h
    ensures AllMet(EvaluateAll(Fresh(dKeys), Evaluated(h)))
  {
    EvaluatedAre(h);
    DistinctCount(Evaluated(h));
    ShedsMetIff(dKeys, Evaluated(h));
  }

  lemma {:induction false} ViolationsAreMet(h: seq<Dispatch>, xKeys: seq<Key>)
    requires Distinct(KeysOf(h)) && Distinct(xKeys) && forall k :: k in xKeys <==> Dispatch(k, Violated) in h
    ensures AllMet(MarkAll(Fresh(xKeys), KeysWith(h, Violated)))
  {
    KeysWithAre(h, Violated);
    DistinctCount(KeysWith(h, Violated));
    DistinctCount(xKeys);
    assert multiset(KeysWith(h, Violated)) == multiset(xKeys);
    ViolationsMetIff(xKeys, KeysWith(h, Violated));
  }

  lemma {:induction false} SameDispatches(p: Program, a: seq<seq<Dispatch>>, b: seq<seq<Dispatch>>)
    requires RunOf(p, a) && RunOf(p, b) && Outcomes(Concat(a)) == Outcomes(Concat(b))
    ensures forall x :: x in Concat(a) <==> x in Concat(b)
  {
    OutcomesAre(p, a);
    OutcomesAre(p, b);
    forall x ensures x in Concat(a) ==> x in Concat(b) { DispatchIn(Concat(a), Concat(b), x); }
    forall x ensures x in Concat(b) ==> x in Concat(a) { DispatchIn(Concat(b), Concat(a), x); }
  }

  lemma {:induction false} DispatchIn(a: seq<Dispatch>, b: seq<Dispatch>, x: Dispatch)
    requires Outcomes(a) == Outcomes(b)
    requires forall k :: k in Outcomes(b) <==> k in KeysOf(b)
    requires forall y | y in a :: y.key in Outcomes(a) && Outcomes(a)[y.key] == y.outcome
    requires forall y | y in b :: y.key in Outcomes(b) && Outcomes(b)[y.key] == y.outcome
    ensures x in a ==> x in b
  {
    if x in a {
      assert x.key in KeysOf(b);
      var j :| 0 <= j < |b| && KeysOf(b)[j] == x.key;
      assert b[j] in b && b[j].key == x.key;
    }
  }
}
