/** Permuted mixed-radix numbers (core/mixed_radix.c). */
module MixedRadix {
  /** Digits within their radixes, low order first. */
  ghost predicate Valid(ds: seq<int>, rs: seq<int>) {
    |ds| == |rs| && forall i | 0 <= i < |ds| :: 0 <= ds[i] < rs[i]
  }

  ghost predicate Radixes(rs: seq<int>) { forall i | 0 <= i < |rs| :: rs[i] > 0 }

  function Product(rs: seq<int>): int { if rs == [] then 1 else rs[0] * Product(rs[1..]) }

  /** The number the digits stand for. */
  function Value(ds: seq<int>, rs: seq<int>): int
    requires |ds| == |rs|
  {
    if ds == [] then 0 else ds[0] + rs[0] * Value(ds[1..], rs[1..])
  }

  /** Adding one to the first digit, with carry; overflow wraps to zero. */
  function Incr(ds: seq<int>, rs: seq<int>): (r: seq<int>)
    requires |ds| == |rs|
    ensures |r| == |ds|
  {
    if ds == [] then []
    else if ds[0] + 1 >= rs[0] then [0] + Incr(ds[1..], rs[1..])
    else [ds[0] + 1] + ds[1..]
  }

  /** A permutation of the first n indexes. */
  ghost predicate IsPermutation(perm: seq<nat>, n: nat) {
    && |perm| == n && (forall i | 0 <= i < n :: perm[i] < n)
    && (forall i, j | 0 <= i < j < n :: perm[i] != perm[j])
    && (forall k: nat | k < n :: k in perm)
  }

  function Permute(s: seq<int>, perm: seq<nat>): (r: seq<int>)
    requires forall i | 0 <= i < |perm| :: perm[i] < |s|
    ensures |r| == |perm| && forall i | 0 <= i < |r| :: r[i] == s[perm[i]]
  {
    seq(|perm|, i requires 0 <= i < |perm| => s[perm[i]])
  }

  // ---- arithmetic of values ----

  lemma {:induction false} ProductPositive(rs: seq<int>)
    requires Radixes(rs)
    ensures Product(rs) > 0
  {
    if rs != [] { ProductPositive(rs[1..]); }
  }

  lemma {:induction false} ValueBounds(ds: seq<int>, rs: seq<int>)
    requires Valid(ds, rs)
    ensures 0 <= Value(ds, rs) < Product(rs)
  {
    if ds != [] {
      ValueBounds(ds[1..], rs[1..]);
      Carry(ds[0], rs[0], Value(ds[1..], rs[1..]), Product(rs[1..]));
    }
  }

  lemma {:induction false} Carry(d: int, r: int, v: int, p: int)
    requires 0 <= d < r && 0 <= v < p
    ensures 0 <= d + r * v < r * p
  {
    Apart(r, v, p);
    assert r * v >= 0;
  }

  lemma {:induction false} CarryOver(r: int, v: int, p: int)
    requires r > 0 && 0 <= v < p
    ensures r * (v + 1) == r * v + r && (v + 1 == p <==> r * v + r == r * p)
  {
    Apart(r, v + 1, p);
  }

  lemma {:induction false} IncrValid(ds: seq<int>, rs: seq<int>)
    requires Valid(ds, rs)
    ensures Valid(Incr(ds, rs), rs)
  {
    if ds != [] { IncrValid(ds[1..], rs[1..]); }
  }

  /** Incrementing adds one, modulo the product of the radixes. */
  lemma {:induction false} IncrValue(ds: seq<int>, rs: seq<int>)
    requires Valid(ds, rs)
    ensures Value(Incr(ds, rs), rs) == if Value(ds, rs) + 1 == Product(rs) then 0 else Value(ds, rs) + 1
  {
    if ds != [] {
      var r, v, p := rs[0], Value(ds[1..], rs[1..]), Product(rs[1..]);
      ValueBounds(ds[1..], rs[1..]);
      if ds[0] + 1 >= r {
        IncrValue(ds[1..], rs[1..]);
        assert Incr(ds, rs)[1..] == Incr(ds[1..], rs[1..]);
        CarryOver(r, v, p);
      } else {
        assert Incr(ds, rs)[1..] == ds[1..];
        Carry(ds[0] + 1, r, v, p);
      }
    }
  }

  lemma {:induction false} ValueInjective(a: seq<int>, b: seq<int>, rs: seq<int>)
    requires Valid(a, rs) && Valid(b, rs) && Value(a, rs) == Value(b, rs)
    ensures a == b
  {
    if rs != [] {
      SameDigit(a[0], b[0], rs[0], Value(a[1..], rs[1..]), Value(b[1..], rs[1..]));
      ValueInjective(a[1..], b[1..], rs[1..]);
      assert a == [a[0]] + a[1..] && b == [b[0]] + b[1..];
    }
  }

  lemma {:induction false} Apart(r: int, v: int, w: int)
    requires r > 0
    ensures v < w ==> r * v + r <= r * w
    decreases w - v
  {
    if v < w {
      Apart(r, v, w - 1);
      assert r * (w - 1) == r * w - r;
    }
  }

  lemma {:induction false} SameDigit(c: int, d: int, r: int, v: int, w: int)
    requires 0 <= c < r && 0 <= d < r && c + r * v == d + r * w
    ensures c == d && v == w
  {
    Apart(r, v, w);
    Apart(r, w, v);
  }

  /** Every number below the product has digits. */
  lemma {:induction false} DigitsOf(v: int, rs: seq<int>) returns (ds: seq<int>)
    requires Radixes(rs) && 0 <= v < Product(rs)
    ensures Valid(ds, rs) && Value(ds, rs) == v
    decreases |rs|
  {
    if rs == [] {
      ds := [];
    } else {
      var q, d := Split(v, rs[0], Product(rs[1..]));
      var rest := DigitsOf(q, rs[1..]);
      ds := [d] + rest;
      assert ds[1..] == rest;
    }
  }

  lemma {:induction false} Split(v: int, r: int, p: int) returns (q: int, d: int)
    requires r > 0 && 0 <= v < r * p
    ensures v == d + r * q && 0 <= d < r && 0 <= q < p
  {
    q, d := v / r, v % r;
    assert v == r * q + d;
    Apart(r, p - 1, q);
    Apart(r, q, 0);
    assert r * (p - 1) == r * p - r;
  }

  // ---- permutations ----

  lemma {:induction false} ValidPermute(ds: seq<int>, rs: seq<int>, perm: seq<nat>)
    requires Valid(ds, rs) && IsPermutation(perm, |ds|)
    ensures Valid(Permute(ds, perm), Permute(rs, perm))
  {
  }

  lemma {:induction false} PermuteInjective(a: seq<int>, b: seq<int>, perm: seq<nat>)
    requires |a| == |b| && IsPermutation(perm, |a|) && Permute(a, perm) == Permute(b, perm)
    ensures a == b
  {
    forall k: nat | k < |a| ensures a[k] == b[k] {
      assert k in perm;
      var i :| 0 <= i < |perm| && perm[i] == k;
      assert Permute(a, perm)[i] == Permute(b, perm)[i];
    }
  }

  lemma {:induction false} ProductSplit(a: seq<int>, b: seq<int>)
    ensures Product(a + b) == Product(a) * Product(b)
  {
    if a == [] {
      assert a + b == b;
    } else {
      ProductSplit(a[1..], b);
      assert (a + b)[1..] == a[1..] + b;
    }
  }

  lemma {:induction false} ProductOne(x: int)
    ensures Product([x]) == x
  {
    assert [x][1..] == [];
  }

  lemma {:induction false} ProductTakeOut(s: seq<int>, i: nat)
    requires i < |s|
    ensures Product(s) == s[i] * Product(s[..i] + s[i + 1..])
  {
    assert s == s[..i] + ([s[i]] + s[i + 1..]);
    ProductSplit(s[..i], [s[i]] + s[i + 1..]);
    ProductSplit([s[i]], s[i + 1..]);
    ProductOne(s[i]);
    ProductSplit(s[..i], s[i + 1..]);
    Swap(Product(s[..i]), s[i], Product(s[i + 1..]));
  }

  lemma {:induction false} Swap(a: int, x: int, b: int)
    ensures a * (x * b) == x * (a * b)
  {
  }

  lemma {:induction false} PermutationLess(perm: seq<nat>, n: nat, i: nat)
    requires n > 0 && IsPermutation(perm, n) && i < n && perm[i] == n - 1
    ensures IsPermutation(perm[..i] + perm[i + 1..], n - 1)
  {
    var rest := perm[..i] + perm[i + 1..];
    forall k: nat | k < n - 1 ensures k in rest {
      assert k in perm;
      var j :| 0 <= j < n && perm[j] == k;
      assert k == if j < i then rest[j] else rest[j - 1];
    }
  }

  lemma {:induction false} ProductPermute(rs: seq<int>, perm: seq<nat>)
    requires IsPermutation(perm, |rs|)
    ensures Product(Permute(rs, perm)) == Product(rs)
    decreases |rs|
  {
    if rs == [] {
      assert Permute(rs, perm) == [];
    } else {
      var n := |rs|;
      assert n - 1 in perm;
      var i :| 0 <= i < n && perm[i] == n - 1;
      var rest, p := perm[..i] + perm[i + 1..], Permute(rs, perm);
      PermutationLess(perm, n, i);
      ProductPermute(rs[..n - 1], rest);
      assert p[..i] + p[i + 1..] == Permute(rs[..n - 1], rest);
      ProductTakeOut(p, i);
      ProductTakeOut(rs, n - 1);
      assert rs[..n - 1] + rs[n..] == rs[..n - 1];
    }
  }

  // ---- enumeration ----

  /** A permuted number: the value counts in the order of the permutation. */
  function PermutedValue(ds: seq<int>, rs: seq<int>, perm: seq<nat>): int
    requires |ds| == |rs| && forall i | 0 <= i < |perm| :: perm[i] < |ds|
  {
    Value(Permute(ds, perm), Permute(rs, perm))
  }

  /** b is a after one mixed_radix_incr. */
  ghost predicate Increments(a: seq<int>, b: seq<int>, rs: seq<int>, perm: seq<nat>)
    requires |rs| == |a| && IsPermutation(perm, |a|)
  {
    |b| == |a| && Permute(b, perm) == Incr(Permute(a, perm), Permute(rs, perm))
  }

  ghost predicate IsCount(run: seq<seq<int>>, rs: seq<int>, perm: seq<nat>)
    requires IsPermutation(perm, |rs|)
  {
    && run != [] && Valid(run[0], rs)
    && forall k | 0 <= k < |run| - 1 :: |run[k]| == |rs| && Increments(run[k], run[k + 1], rs, perm)
  }

  lemma {:induction false} ValidUnpermute(ds: seq<int>, rs: seq<int>, perm: seq<nat>)
    requires |ds| == |rs| && IsPermutation(perm, |rs|) && Valid(Permute(ds, perm), Permute(rs, perm))
    ensures Valid(ds, rs)
  {
    forall k: nat | k < |ds| ensures 0 <= ds[k] < rs[k] {
      assert k in perm;
      var i :| 0 <= i < |perm| && perm[i] == k;
      assert 0 <= Permute(ds, perm)[i] < Permute(rs, perm)[i];
    }
  }

  lemma {:induction false} ModNext(a: int, p: int)
    requires a >= 0 && p > 0
    ensures (a + 1) % p == if a % p + 1 == p then 0 else a % p + 1
  {
    var q, x := a / p, a % p;
    assert a == q * p + x;
    if x + 1 == p { ModIs(q + 1, p, 0); } else { ModIs(q, p, x + 1); }
  }

  lemma {:induction false} ModIs(q: int, p: int, x: int)
    requires 0 <= x < p
    ensures (q * p + x) % p == x
  {
    var a := q * p + x;
    var q', x' := a / p, a % p;
    assert a == p * q' + x';
    SameDigit(x, x', p, q, q');
  }

  lemma {:induction false} CountValue(run: seq<seq<int>>, rs: seq<int>, perm: seq<nat>, k: nat)
    requires IsPermutation(perm, |rs|) && IsCount(run, rs, perm) && k < |run|
    ensures Valid(run[k], rs) && Product(rs) > 0
    ensures PermutedValue(run[k], rs, perm) == (PermutedValue(run[0], rs, perm) + k) % Product(rs)
    ensures 0 <= PermutedValue(run[0], rs, perm) < Product(rs)
  {
    var pr := Permute(rs, perm);
    ValidPermute(run[0], rs, perm);
    ValueBounds(Permute(run[0], perm), pr);
    ProductPermute(rs, perm);
    var v := PermutedValue(run[0], rs, perm);
    if k == 0 {
      ModIs(0, Product(rs), v);
    } else {
      CountValue(run, rs, perm, k - 1);
      var a, b := run[k - 1], run[k];
      assert Increments(a, b, rs, perm);
      ValidPermute(a, rs, perm);
      IncrValid(Permute(a, perm), pr);
      IncrValue(Permute(a, perm), pr);
      ValidUnpermute(b, rs, perm);
      ModNext(v + k - 1, Product(rs));
    }
  }

  /** As many increments as the product of the radixes come back to the start. */
  lemma {:induction false} ComesBack(run: seq<seq<int>>, rs: seq<int>, perm: seq<nat>)
    requires IsPermutation(perm, |rs|) && IsCount(run, rs, perm) && |run| == Product(rs) + 1
    ensures run[|run| - 1] == run[0]
  {
    var p, n := Product(rs), |run| - 1;
    CountValue(run, rs, perm, 0);
    CountValue(run, rs, perm, n);
    var v := PermutedValue(run[0], rs, perm);
    ModIs(1, p, v);
    SameNumber(run[n], run[0], rs, perm);
  }

  lemma {:induction false} SameNumber(a: seq<int>, b: seq<int>, rs: seq<int>, perm: seq<nat>)
    requires IsPermutation(perm, |rs|) && Valid(a, rs) && Valid(b, rs)
    requires PermutedValue(a, rs, perm) == PermutedValue(b, rs, perm)
    ensures a == b
  {
    ValidPermute(a, rs, perm);
    ValidPermute(b, rs, perm);
    ValueInjective(Permute(a, perm), Permute(b, perm), Permute(rs, perm));
    PermuteInjective(a, b, perm);
  }

  /** On the way every integer value is visited, and none twice. */
  lemma {:induction false} VisitsEachOnce(run: seq<seq<int>>, rs: seq<int>, perm: seq<nat>, x: int)
    requires IsPermutation(perm, |rs|) && IsCount(run, rs, perm) && |run| == Product(rs) && 0 <= x < Product(rs)
    ensures forall k | 0 <= k < |run| :: |run[k]| == |rs|
    ensures exists k :: 0 <= k < |run| && Value(run[k], rs) == x
    ensures forall i, j | 0 <= i < j < |run| :: Value(run[i], rs) != Value(run[j], rs)
  {
    forall k | 0 <= k < |run| ensures Valid(run[k], rs) { CountValue(run, rs, perm, k); }
    Visits(run, rs, perm, x);
    forall i, j | 0 <= i < j < |run| ensures Value(run[i], rs) != Value(run[j], rs) { NotTwice(run, rs, perm, i, j); }
  }

  lemma {:induction false} NotTwice(run: seq<seq<int>>, rs: seq<int>, perm: seq<nat>, i: nat, j: nat)
    requires IsPermutation(perm, |rs|) && IsCount(run, rs, perm) && |run| == Product(rs) && i < j < |run|
    ensures |run[i]| == |run[j]| == |rs| && Value(run[i], rs) != Value(run[j], rs)
  {
    CountValue(run, rs, perm, i);
    CountValue(run, rs, perm, j);
    var v, p := PermutedValue(run[0], rs, perm), Product(rs);
    OffsetsDiffer(v, i, j, p);
    if Value(run[i], rs) == Value(run[j], rs) { ValueInjective(run[i], run[j], rs); }
  }

  lemma {:induction false} OffsetsDiffer(v: int, i: nat, j: nat, p: int)
    requires 0 <= v < p && i < j < p
    ensures (v + i) % p != (v + j) % p
  {
    if v + i < p { ModIs(0, p, v + i); } else { ModIs(1, p, v + i - p); }
    if v + j < p { ModIs(0, p, v + j); } else { ModIs(1, p, v + j - p); }
  }

  lemma {:induction false} Offset(v: int, w: int, p: int) returns (k: nat)
    requires 0 <= v < p && 0 <= w < p
    ensures k < p && (v + k) % p == w
  {
    if w >= v {
      k := w - v;
      ModIs(0, p, w);
    } else {
      k := w - v + p;
      ModIs(1, p, w);
    }
  }

  lemma {:induction false} Visits(run: seq<seq<int>>, rs: seq<int>, perm: seq<nat>, x: int)
    requires IsPermutation(perm, |rs|) && IsCount(run, rs, perm) && |run| == Product(rs) && 0 <= x < Product(rs)
    ensures exists k :: 0 <= k < |run| && |run[k]| == |rs| && Value(run[k], rs) == x
  {
    var p, v := Product(rs), PermutedValue(run[0], rs, perm);
    CountValue(run, rs, perm, 0);
    assert Radixes(rs);
    var ds := DigitsOf(x, rs);
    ValidPermute(ds, rs, perm);
    ValueBounds(Permute(ds, perm), Permute(rs, perm));
    ProductPermute(rs, perm);
    var w := PermutedValue(ds, rs, perm);
    var k := Offset(v, w, p);
    CountValue(run, rs, perm, k);
    SameNumber(run[k], ds, rs, perm);
  }

  // ---- dropping digits ----

  /** The value without the first n digits is the value divided by the product of their radixes. */
  lemma {:induction false} DropIsDivision(ds: seq<int>, rs: seq<int>, n: nat)
    requires Valid(ds, rs) && n <= |ds|
    ensures Product(rs[..n]) > 0 && Value(ds[n..], rs[n..]) == Value(ds, rs) / Product(rs[..n])
  {
    var low := rs[..n];
    assert Valid(ds[..n], low);
    assert Radixes(low);
    ProductPositive(low);
    ValueSplit(ds, rs, n);
    ValueBounds(ds[..n], low);
    DivIs(Value(ds[n..], rs[n..]), Product(low), Value(ds[..n], low));
  }

  lemma {:induction false} DivIs(q: int, p: int, x: int)
    requires 0 <= x < p
    ensures (q * p + x) / p == q
  {
    var a := q * p + x;
    var q', x' := a / p, a % p;
    assert a == p * q' + x';
    SameDigit(x, x', p, q, q');
  }

  lemma {:induction false} ValueSplit(ds: seq<int>, rs: seq<int>, n: nat)
    requires |ds| == |rs| && n <= |ds|
    ensures Value(ds, rs) == Value(ds[..n], rs[..n]) + Product(rs[..n]) * Value(ds[n..], rs[n..])
  {
    if n == 0 {
      assert ds[..0] == [] && rs[..0] == [] && ds[0..] == ds && rs[0..] == rs;
    } else {
      ValueSplit(ds[1..], rs[1..], n - 1);
      assert ds[..n][1..] == ds[1..][..n - 1] && rs[..n][1..] == rs[1..][..n - 1];
      assert ds[n..] == ds[1..][n - 1..] && rs[n..] == rs[1..][n - 1..];
      Distribute(rs[0], Value(ds[1..][..n - 1], rs[1..][..n - 1]), Product(rs[1..][..n - 1]), Value(ds[n..], rs[n..]));
    }
  }

  lemma {:induction false} Distribute(r: int, a: int, p: int, v: int)
    ensures r * (a + p * v) == r * a + (r * p) * v
  {
  }

  // ---- the functions of the source ----

  lemma {:induction false} UpdatePermuted(ds: seq<int>, perm: seq<nat>, i: nat, x: int)
    requires IsPermutation(perm, |ds|) && i < |perm|
    ensures Permute(ds[perm[i] := x], perm) == Permute(ds, perm)[i := x]
  {
  }

  /** mixed_radix_incr in place. */
  method Increment(digits: array<int>, radixes: seq<int>, permutation: seq<nat>)
    requires digits.Length > 0 && Valid(digits[..], radixes) && IsPermutation(permutation, digits.Length)
    modifies digits
    ensures Increments(old(digits[..]), digits[..], radixes, permutation)
  {
    ghost var start, pr := Permute(digits[..], permutation), Permute(radixes, permutation);
    var i, n := 0, digits.Length;
    while i < n
      invariant i <= n && Carried(start, pr, Permute(digits[..], permutation), i)
    {
      var d := permutation[i];
      ghost var before := digits[..];
      CarryOne(start, pr, before, permutation, i);
      digits[d] := digits[d] + 1;
      if digits[d] >= radixes[d] {
        digits[d] := 0;
        assert digits[..] == before[d := 0];
        i := i + 1;
      } else {
        assert digits[..] == before[d := before[d] + 1];
        return;
      }
    }
    AllZero(digits[..], permutation);
    digits[i - 1] := 0;
    assert digits[..] == digits[..][i - 1 := 0];
  }

  /** The first i digits of start have overflowed to zero in now; the increment goes on from there. */
  ghost predicate Carried(start: seq<int>, rs: seq<int>, now: seq<int>, i: nat)
    requires |start| == |rs|
  {
    && i <= |start| == |now|
    && (forall k | 0 <= k < i :: now[k] == 0 && Incr(start, rs)[k] == 0)
    && (forall k | i <= k < |start| :: now[k] == start[k])
    && Incr(start, rs)[i..] == Incr(start[i..], rs[i..])
  }

  lemma {:induction false} CarryOne(start: seq<int>, rs: seq<int>, ds: seq<int>, perm: seq<nat>, i: nat)
    requires |start| == |rs| == |ds| && IsPermutation(perm, |ds|) && i < |ds| && Carried(start, rs, Permute(ds, perm), i)
    ensures if ds[perm[i]] + 1 >= rs[i] then Carried(start, rs, Permute(ds[perm[i] := 0], perm), i + 1)
            else Permute(ds[perm[i] := ds[perm[i]] + 1], perm) == Incr(start, rs)
  {
    UpdatePermuted(ds, perm, i, ds[perm[i]] + 1);
    UpdatePermuted(ds, perm, i, 0);
    var tail, rest := start[i..], rs[i..];
    assert tail[0] == start[i] && rest[0] == rs[i] && tail[1..] == start[i + 1..] && rest[1..] == rs[i + 1..];
    var r := Incr(start, rs);
    assert r[i] == r[i..][0] && r[i + 1..] == r[i..][1..];
    if ds[perm[i]] + 1 >= rs[i] {
      assert Incr(tail, rest)[1..] == Incr(tail[1..], rest[1..]);
    } else {
      assert Incr(tail, rest)[1..] == tail[1..];
      forall k | i < k < |start| ensures r[k] == start[k] { assert r[k] == r[i + 1..][k - i - 1] && start[k] == tail[1..][k - i - 1]; }
    }
  }

  lemma {:induction false} AllZero(ds: seq<int>, perm: seq<nat>)
    requires IsPermutation(perm, |ds|) && forall i | 0 <= i < |perm| :: Permute(ds, perm)[i] == 0
    ensures forall k | 0 <= k < |ds| :: ds[k] == 0
  {
    forall k: nat | k < |ds| ensures ds[k] == 0 {
      assert k in perm;
      var i :| 0 <= i < |perm| && perm[i] == k;
      assert Permute(ds, perm)[i] == ds[k];
    }
  }

  /** mixed_radix_parent, and mixed_radix_to_int for n = 0. */
  method Parent(digits: seq<int>, radixes: seq<int>, n: nat) returns (result: int)
    requires |digits| == |radixes| > 0 && Valid(digits, radixes)
    ensures n >= |digits| ==> result == 0
    ensures n <= |digits| ==> Product(radixes[..n]) > 0 && result == Value(digits, radixes) / Product(radixes[..n])
  {
    result := 0;
    var factor := 1;
    if n <= |digits| { DropIsDivision(digits, radixes, n); }
    var i := n;
    while i < |digits|
      invariant n <= i && (n <= |digits| ==> i <= |digits|)
      invariant n <= |digits| ==> factor == Product(radixes[n..i])
      invariant n <= |digits| ==> Value(digits[n..], radixes[n..]) == result + factor * Value(digits[i..], radixes[i..])
      invariant n >= |digits| ==> result == 0
    {
      Distribute(factor, digits[i], radixes[i], Value(digits[i + 1..], radixes[i + 1..]));
      assert digits[i..][1..] == digits[i + 1..] && radixes[i..][1..] == radixes[i + 1..];
      ProductSplit(radixes[n..i], [radixes[i]]);
      ProductOne(radixes[i]);
      assert radixes[n..i + 1] == radixes[n..i] + [radixes[i]];
      result := result + factor * digits[i];
      factor := factor * radixes[i];
      i := i + 1;
    }
  }
}
