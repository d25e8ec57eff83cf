/** Binary heaps in a sequence whose index 0 is unused (core/utils/pqueue_base.c): order, sifting,
    the pruned search and the validity check. */
module Heap {
  type Element = nat
  type Priority = Element -> int

  ghost predicate Ordered(pri: Priority, s: seq<Element>) {
    forall k | 2 <= k < |s| :: pri(s[k / 2]) <= pri(s[k])
  }

  /** Ordered but for the link from i to its parent, and fit for i to go up. */
  ghost predicate OrderedAbove(pri: Priority, s: seq<Element>, i: nat) {
    && (forall k | 2 <= k < |s| && k != i :: pri(s[k / 2]) <= pri(s[k]))
    && (forall k | 2 <= k < |s| && k / 2 == i && i > 1 :: pri(s[i / 2]) <= pri(s[k]))
  }

  /** Ordered but for the links from i to its children, and fit for i to go down. */
  ghost predicate OrderedBelow(pri: Priority, s: seq<Element>, i: nat) {
    && (forall k | 2 <= k < |s| && k / 2 != i :: pri(s[k / 2]) <= pri(s[k]))
    && (forall k | 2 <= k < |s| && k / 2 == i && i > 1 :: pri(s[i / 2]) <= pri(s[k]))
  }

  function Swapped(s: seq<Element>, i: nat, j: nat): seq<Element>
    requires i < |s| && j < |s|
  {
    s[i := s[j]][j := s[i]]
  }

  lemma SwapKeepsElements(s: seq<Element>, i: nat, j: nat)
    requires 1 <= i < |s| && 1 <= j < |s|
    ensures multiset(Swapped(s, i, j)[1..]) == multiset(s[1..])
  {
    assert Swapped(s, i, j)[1..] == s[1..][i - 1 := s[j]][j - 1 := s[i]];
  }

  lemma UpOnce(pri: Priority, s: seq<Element>, i: nat)
    requires 2 <= i < |s| && OrderedAbove(pri, s, i) && pri(s[i / 2]) > pri(s[i])
    ensures OrderedAbove(pri, Swapped(s, i, i / 2), i / 2)
  {
    var p := i / 2;
    var t := Swapped(s, i, p);
    forall k | 2 <= k < |t| && k != p ensures pri(t[k / 2]) <= pri(t[k]) {
      assert k != i ==> pri(s[k / 2]) <= pri(s[k]);
    }
    forall k | 2 <= k < |t| && k / 2 == p && p > 1 ensures pri(t[p / 2]) <= pri(t[k]) {
      assert pri(s[p / 2]) <= pri(s[p]);
      assert k != i ==> pri(s[k / 2]) <= pri(s[k]);
    }
  }

  /** The smaller child of i, or 0 if it has none. */
  function SmallerChild(pri: Priority, s: seq<Element>, i: nat): (c: nat)
    requires 1 <= i
    ensures c == 0 <==> 2 * i >= |s|
    ensures c != 0 ==> c < |s| && c / 2 == i && forall k | 2 <= k < |s| && k / 2 == i :: pri(s[c]) <= pri(s[k])
  {
    if 2 * i >= |s| then 0
    else if 2 * i + 1 < |s| && pri(s[2 * i]) > pri(s[2 * i + 1]) then 2 * i + 1
    else 2 * i
  }

  lemma DownOnce(pri: Priority, s: seq<Element>, i: nat)
    requires 1 <= i < |s| && OrderedBelow(pri, s, i)
    requires SmallerChild(pri, s, i) != 0 && pri(s[i]) > pri(s[SmallerChild(pri, s, i)])
    ensures OrderedBelow(pri, Swapped(s, i, SmallerChild(pri, s, i)), SmallerChild(pri, s, i))
  {
    var c := SmallerChild(pri, s, i);
    var t := Swapped(s, i, c);
    forall k | 2 <= k < |t| && k / 2 != c ensures pri(t[k / 2]) <= pri(t[k]) {
      if k == i { assert pri(s[i / 2]) <= pri(s[c]); }
      assert k / 2 != i ==> pri(s[k / 2]) <= pri(s[k]);
    }
    forall k | 2 <= k < |t| && k / 2 == c ensures pri(t[c / 2]) <= pri(t[k]) {
      assert pri(s[c]) <= pri(s[k]);
    }
  }

  lemma {:induction false} RootIsLeast(pri: Priority, s: seq<Element>, k: nat)
    requires Ordered(pri, s) && 1 <= k < |s|
    ensures pri(s[1]) <= pri(s[k])
  {
    if k > 1 { RootIsLeast(pri, s, k / 2); }
  }

  // ---- subtrees ----

  predicate InSubtree(k: nat, pos: nat) {
    k == pos || (k > pos && InSubtree(k / 2, pos))
  }

  lemma {:induction false} AllUnderRoot(k: nat)
    requires k >= 1
    ensures InSubtree(k, 1)
  {
    if k > 1 { AllUnderRoot(k / 2); }
  }

  lemma {:induction false} UnderAChild(k: nat, pos: nat)
    requires pos >= 1 && InSubtree(k, pos) && k != pos
    ensures InSubtree(k, 2 * pos) || InSubtree(k, 2 * pos + 1)
    ensures k >= 2 * pos
  {
    if k / 2 != pos { UnderAChild(k / 2, pos); }
  }

  lemma {:induction false} ChildIsUnder(k: nat, pos: nat, child: nat)
    requires pos >= 1 && InSubtree(k, child) && child / 2 == pos
    ensures InSubtree(k, pos) && k != pos && k >= child
  {
    if k != child { ChildIsUnder(k / 2, pos, child); }
  }

  lemma {:induction false} TopIsLeast(pri: Priority, s: seq<Element>, k: nat, pos: nat)
    requires Ordered(pri, s) && 1 <= pos && k < |s| && InSubtree(k, pos)
    ensures pos < |s| && pri(s[pos]) <= pri(s[k])
  {
    if k != pos { TopIsLeast(pri, s, k / 2, pos); }
  }

  // ---- the pruned search ----

  type Same = (Element, Element) -> bool

  /** find_equal_same_priority from pos; 0 stands for NULL. find_same_priority is the case where
      eq always holds. */
  function Find(pri: Priority, eq: Same, s: seq<Element>, e: Element, pos: nat): (at: nat)
    requires pos >= 1
    ensures at != 0 ==> at < |s| && pri(s[at]) == pri(e) && eq(s[at], e)
    decreases |s| - pos
  {
    if pos >= |s| then 0
    else if pri(s[pos]) > pri(e) then 0
    else if pri(s[pos]) == pri(e) && eq(s[pos], e) then pos
    else
      var left := Find(pri, eq, s, e, 2 * pos);
      if left != 0 then left else Find(pri, eq, s, e, 2 * pos + 1)
  }

  lemma {:induction false} FindReaches(pri: Priority, eq: Same, s: seq<Element>, e: Element, pos: nat, k: nat)
    requires Ordered(pri, s) && pos >= 1 && k < |s| && InSubtree(k, pos) && pri(s[k]) == pri(e) && eq(s[k], e)
    ensures Find(pri, eq, s, e, pos) != 0
    decreases |s| - pos
  {
    TopIsLeast(pri, s, k, pos);
    if k != pos {
      UnderAChild(k, pos);
      if InSubtree(k, 2 * pos) {
        FindReaches(pri, eq, s, e, 2 * pos, k);
      } else {
        FindReaches(pri, eq, s, e, 2 * pos + 1, k);
      }
    }
  }

  /** The pruned search finds an equal element exactly when a linear scan would. */
  lemma FindIffScan(pri: Priority, eq: Same, s: seq<Element>, e: Element)
    requires Ordered(pri, s)
    ensures Find(pri, eq, s, e, 1) != 0 <==> exists k :: 1 <= k < |s| && pri(s[k]) == pri(e) && eq(s[k], e)
  {
    if k :| 1 <= k < |s| && pri(s[k]) == pri(e) && eq(s[k], e) {
      AllUnderRoot(k);
      FindReaches(pri, eq, s, e, 1, k);
    }
  }

  // ---- the validity check ----

  /** subtree_is_valid. */
  predicate SubtreeIsValid(pri: Priority, s: seq<Element>, pos: nat)
    requires 1 <= pos
    decreases |s| - pos
  {
    && (2 * pos < |s| ==> pri(s[pos]) <= pri(s[2 * pos]) && SubtreeIsValid(pri, s, 2 * pos))
    && (2 * pos + 1 < |s| ==> pri(s[pos]) <= pri(s[2 * pos + 1]) && SubtreeIsValid(pri, s, 2 * pos + 1))
  }

  lemma {:induction false} SubtreeIsValidIff(pri: Priority, s: seq<Element>, pos: nat)
    requires 1 <= pos
    ensures SubtreeIsValid(pri, s, pos) <==>
            forall k | 2 <= k < |s| && k != pos && InSubtree(k, pos) :: pri(s[k / 2]) <= pri(s[k])
    decreases |s| - pos
  {
    var left, right := 2 * pos, 2 * pos + 1;
    if left < |s| { SubtreeIsValidIff(pri, s, left); }
    if right < |s| { SubtreeIsValidIff(pri, s, right); }
    forall k | 2 <= k < |s| && k != pos && InSubtree(k, pos) ensures InSubtree(k, left) || InSubtree(k, right) { UnderAChild(k, pos); }
    forall k: nat | InSubtree(k, left) ensures InSubtree(k, pos) && k != pos && k >= left { ChildIsUnder(k, pos, left); }
    forall k: nat | InSubtree(k, right) ensures InSubtree(k, pos) && k != pos && k >= right { ChildIsUnder(k, pos, right); }
    if left < |s| { assert InSubtree(left, left); }
    if right < |s| { assert InSubtree(right, right); }
  }

  /** The recursive check from the root holds exactly when the whole heap is ordered. */
  lemma ValidIffOrdered(pri: Priority, s: seq<Element>)
    ensures SubtreeIsValid(pri, s, 1) <==> Ordered(pri, s)
  {
    SubtreeIsValidIff(pri, s, 1);
    forall k | 2 <= k < |s| ensures InSubtree(k, 1) { AllUnderRoot(k); }
  }
}
