/** The open-addressing table with which ms_check_reaction_key makes sure that no two dispatched
    reactions share a masked key. */
module MsKeys {
  const SIZE: nat := 4096

  type Reaction = nat
  const NULL: int := -1

  datatype Verdict = Fine | Full | Collision    // the last two stop the program

  function Hash(k: bv64): (h: nat)
    ensures h < SIZE
  {
    ((k ^ (k >> 29) ^ (k >> 47)) & 0xFFF) as bv12 as nat
  }

  /** The m-th slot probed from h, and the probe at which a slot is reached. */
  function At(h: nat, m: nat): (i: nat)
    requires h < SIZE && m < SIZE
    ensures i < SIZE && Dist(h, i) == m
  {
    if h + m < SIZE then h + m else h + m - SIZE
  }

  function Dist(h: nat, i: nat): (m: nat)
    requires h < SIZE && i < SIZE
    ensures m < SIZE
  {
    if i >= h then i - h else i - h + SIZE
  }

  // ---- the specification: a set of reactions ----

  predicate Clashes(key: Reaction -> bv64, checked: set<Reaction>, r: Reaction) {
    exists s :: s in checked && key(s) == key(r)
  }

  /** What a check answers, given the reactions in the table and their masked keys. */
  function Answer(key: Reaction -> bv64, checked: set<Reaction>, r: Reaction): Verdict {
    if r in checked then Fine
    else if Clashes(key, checked, r) then Collision
    else if |checked| >= SIZE / 2 then Full
    else Fine
  }

  // ---- the table ----

  predicate Shaped(keys: seq<bv64>, owners: seq<int>) {
    |keys| == SIZE && |owners| == SIZE && forall i | 0 <= i < SIZE :: owners[i] >= NULL
  }

  predicate Used(owners: seq<int>, i: nat)
    requires i < |owners|
  {
    owners[i] != NULL
  }

  ghost function UsedSlots(owners: seq<int>): set<nat> { set i | 0 <= i < |owners| && owners[i] != NULL }

  ghost function Owners(owners: seq<int>): set<Reaction>
    requires forall i | 0 <= i < |owners| :: owners[i] >= NULL
  {
    set i | 0 <= i < |owners| && owners[i] != NULL :: owners[i]
  }

  /** Every slot between an entry's hash and its place is used. */
  ghost predicate Reachable(keys: seq<bv64>, owners: seq<int>, i: nat)
    requires Shaped(keys, owners) && i < SIZE
  {
    forall m | 0 <= m < Dist(Hash(keys[i]), i) :: Used(owners, At(Hash(keys[i]), m))
  }

  ghost predicate AllReachable(keys: seq<bv64>, owners: seq<int>)
    requires Shaped(keys, owners)
  {
    forall i | 0 <= i < SIZE && owners[i] != NULL :: Reachable(keys, owners, i)
  }

  ghost predicate TableOk(key: Reaction -> bv64, keys: seq<bv64>, owners: seq<int>, count: nat) {
    && Shaped(keys, owners)
    && (forall i | 0 <= i < SIZE && owners[i] != NULL :: keys[i] == key(owners[i]))
    && (forall i, j | 0 <= i < j < SIZE && owners[i] != NULL && owners[j] != NULL :: keys[i] != keys[j])
    && AllReachable(keys, owners)
    && count == |UsedSlots(owners)| && count <= SIZE / 2
  }

  /** The probes of k before the n-th met only other used slots. */
  ghost predicate Passed(keys: seq<bv64>, owners: seq<int>, h: nat, k: bv64, n: nat)
    requires Shaped(keys, owners) && h < SIZE && n <= SIZE
  {
    forall m | 0 <= m < n :: Used(owners, At(h, m)) && keys[At(h, m)] != k
  }

  /** At an empty slot the probe has proved the key absent. */
  lemma AbsentAtEmpty(key: Reaction -> bv64, keys: seq<bv64>, owners: seq<int>, count: nat, r: Reaction, n: nat)
    requires TableOk(key, keys, owners, count) && n < SIZE
    requires Passed(keys, owners, Hash(key(r)), key(r), n) && owners[At(Hash(key(r)), n)] == NULL
    ensures forall i | 0 <= i < SIZE && owners[i] != NULL :: keys[i] != key(r)
    ensures r !in Owners(owners) && !Clashes(key, Owners(owners), r)
  {
    var k := key(r);
    forall i | 0 <= i < SIZE && owners[i] != NULL ensures keys[i] != k {
      assert Reachable(keys, owners, i);
      var d := Dist(Hash(k), i);
      assert At(Hash(k), d) == i;
      if n < Dist(Hash(keys[i]), i) { assert Used(owners, At(Hash(keys[i]), n)); }
    }
    forall s | s in Owners(owners) ensures key(s) != k {
      var i :| 0 <= i < |owners| && owners[i] != NULL && owners[i] == s;
    }
  }

  /** At a slot of the same key the answer is decided by its owner. */
  lemma DecidedAtKey(key: Reaction -> bv64, keys: seq<bv64>, owners: seq<int>, count: nat, r: Reaction, i: nat)
    requires TableOk(key, keys, owners, count) && i < SIZE && owners[i] != NULL && keys[i] == key(r)
    ensures owners[i] == r <==> r in Owners(owners)
    ensures owners[i] != r ==> Clashes(key, Owners(owners), r)
  {
    assert owners[i] in Owners(owners);
    if r in Owners(owners) {
      var j :| 0 <= j < |owners| && owners[j] != NULL && owners[j] == r;
    }
  }

  /** A table at most half full has an empty slot on every probe path. */
  lemma EmptySlotAhead(keys: seq<bv64>, owners: seq<int>, h: nat, k: bv64)
    requires Shaped(keys, owners) && h < SIZE && Passed(keys, owners, h, k, SIZE)
    ensures |UsedSlots(owners)| == SIZE
  {
    forall i | 0 <= i < SIZE ensures owners[i] != NULL {
      assert At(h, Dist(h, i)) == i;
      assert Used(owners, At(h, Dist(h, i)));
    }
    AllUsed(owners, SIZE);
    assert owners[..SIZE] == owners;
  }

  lemma {:induction false} AllUsed(owners: seq<int>, n: nat)
    requires n <= |owners| && forall i | 0 <= i < n :: owners[i] != NULL
    ensures |UsedSlots(owners[..n])| == n
  {
    if n == 0 {
      assert UsedSlots(owners[..n]) == {};
    } else {
      AllUsed(owners, n - 1);
      assert UsedSlots(owners[..n]) == UsedSlots(owners[..n - 1]) + {n - 1};
    }
  }

  /** Owners are as many as used slots, since keys tell them apart. */
  lemma OwnersCount(key: Reaction -> bv64, keys: seq<bv64>, owners: seq<int>, count: nat)
    requires TableOk(key, keys, owners, count)
    ensures |Owners(owners)| == count
  {
    forall i, j | 0 <= i < j < |owners| && owners[i] != NULL && owners[j] != NULL ensures owners[i] != owners[j] {
      assert keys[i] != keys[j];
    }
    CountPrefix(owners, SIZE);
    assert owners[..SIZE] == owners;
  }

  lemma {:induction false} CountPrefix(owners: seq<int>, n: nat)
    requires n <= |owners| && forall i | 0 <= i < |owners| :: owners[i] >= NULL
    requires forall i, j | 0 <= i < j < |owners| && owners[i] != NULL && owners[j] != NULL :: owners[i] != owners[j]
    ensures |Owners(owners[..n])| == |UsedSlots(owners[..n])|
  {
    if n == 0 {
      assert Owners(owners[..n]) == {} && UsedSlots(owners[..n]) == {};
    } else {
      CountPrefix(owners, n - 1);
      var a := owners[..n - 1];
      assert owners[..n] == a + [owners[n - 1]];
      GrowOwners(a, owners[n - 1]);
      assert owners[n - 1] != NULL ==> owners[n - 1] !in Owners(a);
    }
  }

  lemma GrowOwners(a: seq<int>, r: int)
    requires forall i | 0 <= i < |a| :: a[i] >= NULL
    requires r >= NULL
    ensures Owners(a + [r]) == if r == NULL then Owners(a) else Owners(a) + {r}
    ensures UsedSlots(a + [r]) == if r == NULL then UsedSlots(a) else UsedSlots(a) + {|a|}
  {
    var b := a + [r];
    assert forall i | 0 <= i < |a| :: b[i] == a[i];
    assert b[|a|] == r;
    assert forall s | s in Owners(a) :: s in Owners(b) by {
      forall s | s in Owners(a) ensures s in Owners(b) {
        var i :| 0 <= i < |a| && a[i] != NULL && a[i] == s;
        assert b[i] == s;
      }
    }
    if r != NULL { assert b[|a|] in Owners(b); }
  }

  /** Filling the first empty slot of the probe path keeps the table in order. */
  lemma InsertKeeps(key: Reaction -> bv64, keys: seq<bv64>, owners: seq<int>, count: nat, r: Reaction, n: nat)
    requires TableOk(key, keys, owners, count) && n < SIZE && count < SIZE / 2
    requires Passed(keys, owners, Hash(key(r)), key(r), n) && owners[At(Hash(key(r)), n)] == NULL
    ensures var i := At(Hash(key(r)), n); TableOk(key, keys[i := key(r)], owners[i := r], count + 1)
    ensures Owners(owners[At(Hash(key(r)), n) := r]) == Owners(owners) + {r}
  {
    var i := At(Hash(key(r)), n);
    var keys', owners' := keys[i := key(r)], owners[i := r];
    AbsentAtEmpty(key, keys, owners, count, r, n);
    assert UsedSlots(owners') == UsedSlots(owners) + {i};
    ReachableAfter(key, keys, owners, count, r, n);
    OwnersAfter(owners, i, r);
  }

  lemma ReachableAfter(key: Reaction -> bv64, keys: seq<bv64>, owners: seq<int>, count: nat, r: Reaction, n: nat)
    requires TableOk(key, keys, owners, count) && n < SIZE && Passed(keys, owners, Hash(key(r)), key(r), n)
    ensures var i := At(Hash(key(r)), n); AllReachable(keys[i := key(r)], owners[i := r])
  {
    var i := At(Hash(key(r)), n);
    var keys', owners' := keys[i := key(r)], owners[i := r];
    assert forall j | 0 <= j < SIZE && Used(owners, j) :: Used(owners', j);
    forall j | 0 <= j < SIZE && owners'[j] != NULL ensures Reachable(keys', owners', j) {
      if j != i { assert Reachable(keys, owners, j); }
    }
  }

  lemma OwnersAfter(owners: seq<int>, i: nat, r: Reaction)
    requires i < |owners| && owners[i] == NULL && forall j | 0 <= j < |owners| :: owners[j] >= NULL
    ensures Owners(owners[i := r]) == Owners(owners) + {r}
  {
    var owners' := owners[i := r];
    forall s | s in Owners(owners) + {r} ensures s in Owners(owners') {
      if s == r {
        assert owners'[i] == r;
      } else {
        var j :| 0 <= j < |owners| && owners[j] != NULL && owners[j] == s;
        assert owners'[j] == s;
      }
    }
  }

  class KeyTable {
    const mask: bv64
    const keys: array<bv64>
    const owners: array<int>
    var count: nat

    /** key gives the masked key of each reaction. */
    ghost predicate Valid(key: Reaction -> bv64)
      reads this, keys, owners
    {
      keys as object != owners && keys.Length == SIZE && owners.Length == SIZE && TableOk(key, keys[..], owners[..], count)
    }

    ghost function Checked(key: Reaction -> bv64): set<Reaction>
      requires Valid(key)
      reads this, keys, owners
    {
      Owners(owners[..])
    }

    constructor (mask: bv64, ghost key: Reaction -> bv64)
      ensures Valid(key) && Checked(key) == {} && this.mask == mask && fresh(keys) && fresh(owners)
    {
      this.mask := mask;
      keys := new bv64[SIZE](_ => 0);
      owners := new int[SIZE](_ => NULL);
      count := 0;
      new;
      assert UsedSlots(owners[..]) == {} && Owners(owners[..]) == {};
    }

    /** The probe loop from slot h: it always reaches a slot that decides the check. */
    method Probe(h: nat, k: bv64, r: Reaction) returns (i: nat, ghost n: nat)
      requires h < SIZE && keys.Length == SIZE && owners.Length == SIZE && Shaped(keys[..], owners[..])
      requires |UsedSlots(owners[..])| < SIZE
      ensures n < SIZE && i == At(h, n) && Passed(keys[..], owners[..], h, k, n)
      ensures owners[i] == NULL || owners[i] == r || keys[i] == k
    {
      i, n := h, 0;
      var tries := 0;
      while tries < SIZE
        invariant tries == n <= SIZE && (n < SIZE ==> i == At(h, n))
        invariant Passed(keys[..], owners[..], h, k, n)
      {
        if owners[i] == NULL || owners[i] == r || keys[i] == k { return; }
        tries, n := tries + 1, n + 1;
        i := if i + 1 == SIZE then 0 else i + 1;
      }
      EmptySlotAhead(keys[..], owners[..], h, k);
      assert false;
    }

    method Fill(i: nat, k: bv64, r: Reaction, ghost key: Reaction -> bv64, ghost n: nat)
      requires Valid(key) && key(r) == k && n < SIZE && i == At(Hash(k), n) && count < SIZE / 2
      requires Passed(keys[..], owners[..], Hash(k), k, n) && owners[i] == NULL
      modifies this`count, keys, owners
      ensures Valid(key) && Checked(key) == old(Checked(key)) + {r}
    {
      ghost var ks, os := keys[..], owners[..];
      InsertKeeps(key, ks, os, count, r, n);
      keys[i] := k;
      owners[i] := r;
      count := count + 1;
      assert keys[..] == ks[i := k] && owners[..] == os[i := r];
    }

    /** ms_check_reaction_key. */
    method Check(word: bv64, r: Reaction, ghost key: Reaction -> bv64) returns (verdict: Verdict)
      requires Valid(key) && key(r) == word & mask
      modifies this`count, keys, owners
      ensures Valid(key)
      ensures verdict == Answer(key, old(Checked(key)), r)
      ensures Checked(key) == old(Checked(key)) + if verdict == Fine then {r} else {}
    {
      var k := word & mask;
      ghost var ks, os := keys[..], owners[..];
      OwnersCount(key, ks, os, count);
      ghost var n;
      var i;
      i, n := Probe(Hash(k), k, r);
      if owners[i] == NULL {
        AbsentAtEmpty(key, ks, os, count, r, n);
        if count >= SIZE / 2 { return Full; }
        Fill(i, k, r, key, n);
        return Fine;
      }
      if owners[i] == r {
        assert os[i] in Owners(os);
        return Fine;
      }
      DecidedAtKey(key, ks, os, count, r, i);
      return Collision;
    }
  }

  // ---- whole runs ----

  /** The reactions in the table after a run of checks, if none was fatal. */
  function After(key: Reaction -> bv64, rs: seq<Reaction>): set<Reaction> {
    if rs == [] then {} else After(key, rs[..|rs| - 1]) + {rs[|rs| - 1]}
  }

  predicate NoStop(key: Reaction -> bv64, rs: seq<Reaction>) {
    rs == [] || (NoStop(key, rs[..|rs| - 1]) && Answer(key, After(key, rs[..|rs| - 1]), rs[|rs| - 1]) == Fine)
  }

  ghost predicate DistinctKeys(key: Reaction -> bv64, rs: seq<Reaction>) {
    forall i, j | 0 <= i < |rs| && 0 <= j < |rs| && key(rs[i]) == key(rs[j]) :: rs[i] == rs[j]
  }

  lemma {:induction false} AfterIs(key: Reaction -> bv64, rs: seq<Reaction>)
    ensures forall r :: r in After(key, rs) <==> r in rs
  {
    if rs != [] { AfterIs(key, rs[..|rs| - 1]); }
  }

  lemma {:induction false} AfterGrows(key: Reaction -> bv64, rs: seq<Reaction>)
    requires rs != []
    ensures var before, r := After(key, rs[..|rs| - 1]), rs[|rs| - 1];
      |After(key, rs)| == |before| + if r in before then 0 else 1
  {
    var before, r := After(key, rs[..|rs| - 1]), rs[|rs| - 1];
    if r in before { assert before + {r} == before; }
  }

  lemma DistinctKeysAppend(key: Reaction -> bv64, rs: seq<Reaction>, r: Reaction)
    ensures DistinctKeys(key, rs + [r]) <==> DistinctKeys(key, rs) && forall i | 0 <= i < |rs| && key(rs[i]) == key(r) :: rs[i] == r
  {
    var more := rs + [r];
    assert more[|rs|] == r;
    assert forall i | 0 <= i < |rs| :: more[i] == rs[i];
  }

  /** The program is not stopped exactly when all checked reactions have pairwise distinct masked
      keys and there are at most SIZE / 2 of them. */
  lemma {:induction false} NoStopIff(key: Reaction -> bv64, rs: seq<Reaction>)
    ensures NoStop(key, rs) <==> DistinctKeys(key, rs) && |After(key, rs)| <= SIZE / 2
  {
    if rs != [] {
      var init, r := rs[..|rs| - 1], rs[|rs| - 1];
      NoStopIff(key, init);
      AfterIs(key, init);
      AfterGrows(key, rs);
      assert rs == init + [r];
      DistinctKeysAppend(key, init, r);
      NewcomerIff(key, init, r);
    }
  }

  /** Against distinct keys: r is new and clashes, or it agrees with every equal key. */
  lemma NewcomerIff(key: Reaction -> bv64, rs: seq<Reaction>, r: Reaction)
    requires forall s :: s in After(key, rs) <==> s in rs
    ensures DistinctKeys(key, rs) ==>
              ((forall i | 0 <= i < |rs| && key(rs[i]) == key(r) :: rs[i] == r) <==>
               r in After(key, rs) || !Clashes(key, After(key, rs), r))
  {
    if Clashes(key, After(key, rs), r) {
      var s :| s in After(key, rs) && key(s) == key(r);
      var i :| 0 <= i < |rs| && rs[i] == s;
    } else {
      forall i | 0 <= i < |rs| ensures key(rs[i]) != key(r) { assert rs[i] in After(key, rs); }
    }
  }
}
