/** The priority queue of core/utils/pqueue_base.c: an array of elements that know their positions. */
module PriorityQueue {
  import opened Heap

  /** Every element but that at i has its position stored, and differs from that at i. */
  ghost predicate PlacedBut(s: seq<Element>, pos: map<Element, nat>, i: nat)
    requires i < |s|
  {
    forall k | 1 <= k < |s| && k != i :: s[k] in pos && pos[s[k]] == k && s[k] != s[i]
  }

  ghost predicate Placed(s: seq<Element>, pos: map<Element, nat>) {
    forall k | 1 <= k < |s| :: s[k] in pos && pos[s[k]] == k
  }

  lemma PlacedMoves(s: seq<Element>, pos: map<Element, nat>, i: nat, j: nat)
    requires 1 <= i < |s| && 1 <= j < |s| && i != j && PlacedBut(s, pos, i)
    ensures PlacedBut(Swapped(s, i, j), pos[s[j] := i], j)
  {
    var t, pos' := Swapped(s, i, j), pos[s[j] := i];
    forall k | 1 <= k < |t| && k != j ensures t[k] in pos' && pos'[t[k]] == k && t[k] != t[j] {
      if k != i { assert s[k] in pos && pos[s[k]] == k && pos[s[j]] == j; }
    }
  }

  /** v is the heap with the moving element at i, while slot i still holds something else. */
  ghost predicate Sifting(s: seq<Element>, v: seq<Element>, pos: map<Element, nat>, i: nat, moving: Element) {
    && 1 <= i < |v| == |s| && v[i] == moving && PlacedBut(v, pos, i) && multiset(v[1..]) == multiset(s[1..])
  }

  ghost predicate SameBut(a: seq<Element>, v: seq<Element>, i: nat) {
    |a| == |v| && forall k | 0 <= k < |v| && k != i :: a[k] == v[k]
  }

  lemma SiftOnce(s: seq<Element>, v: seq<Element>, pos: map<Element, nat>, i: nat, moving: Element, j: nat, a: seq<Element>)
    requires Sifting(s, v, pos, i, moving) && 1 <= j < |v| && j != i && SameBut(a, v, i)
    ensures Sifting(s, Swapped(v, i, j), pos[v[j] := i], j, moving) && a[j] == v[j]
    ensures SameBut(a[i := a[j]], Swapped(v, i, j), j)
  {
    PlacedMoves(v, pos, i, j);
    SwapKeepsElements(v, i, j);
  }

  lemma SiftEnds(s: seq<Element>, v: seq<Element>, pos: map<Element, nat>, i: nat, moving: Element, a: seq<Element>)
    requires Sifting(s, v, pos, i, moving) && SameBut(a, v, i)
    ensures Placed(v, pos[moving := i]) && a[i := moving] == v
  {
  }

  class PQueue {
    const pri: Priority
    const step: nat
    var d: array<Element>
    var size: nat
    var pos: map<Element, nat>

    ghost predicate Shaped()
      reads this
    {
      step > 0 && 1 <= size <= d.Length
    }

    ghost function Slots(): seq<Element>
      requires Shaped()
      reads this, d
    {
      d[..size]
    }

    /** Heap order and stored positions. */
    ghost predicate Valid()
      reads this, d
    {
      Shaped() && Ordered(pri, Slots()) && Placed(Slots(), pos)
    }

    ghost function Contents(): multiset<Element>
      requires Shaped()
      reads this, d
    {
      multiset(Slots()[1..])
    }

    constructor (pri: Priority, n: nat)
      ensures Valid() && fresh(d) && Contents() == multiset{} && this.pri == pri
    {
      this.pri := pri;
      step := n + 1;
      d := new Element[n + 1](_ => 0);
      size := 1;
      pos := map[];
    }

    method BubbleUp(start: nat)
      requires Shaped() && 1 <= start < size && OrderedAbove(pri, Slots(), start) && PlacedBut(Slots(), pos, start)
      modifies d, this`pos
      ensures Valid() && Contents() == old(Contents())
    {
      var i, moving := start, d[start];
      ghost var s := Slots();
      ghost var v := s;
      while i > 1 && pri(d[i / 2]) > pri(moving)
        invariant Sifting(s, v, pos, i, moving) && |s| == size && SameBut(Slots(), v, i) && OrderedAbove(pri, v, i)
      {
        SiftOnce(s, v, pos, i, moving, i / 2, Slots());
        UpOnce(pri, v, i);
        v := Swapped(v, i, i / 2);
        SetSlot(i, d[i / 2]);
        i := i / 2;
      }
      SiftEnds(s, v, pos, i, moving, Slots());
      SetSlot(i, moving);
      AboveIsOrdered(pri, v, i);
    }

    /** Writing a slot and the position of what it now holds. */
    method SetSlot(i: nat, e: Element)
      requires Shaped() && i < size
      modifies d, this`pos
      ensures Slots() == old(Slots())[i := e] && pos == old(pos)[e := i]
    {
      d[i] := e;
      pos := pos[e := i];
    }

    method PercolateDown(start: nat)
      requires Shaped() && 1 <= start < size && OrderedBelow(pri, Slots(), start) && PlacedBut(Slots(), pos, start)
      modifies d, this`pos
      ensures Valid() && Contents() == old(Contents())
    {
      var i, moving := start, d[start];
      ghost var s := Slots();
      ghost var v := s;
      var child := MaxChild(i);
      while child != 0 && pri(moving) > pri(d[child])
        invariant Sifting(s, v, pos, i, moving) && |s| == size && SameBut(Slots(), v, i) && OrderedBelow(pri, v, i)
        invariant child == SmallerChild(pri, v, i)
        decreases size - i
      {
        SiftOnce(s, v, pos, i, moving, child, Slots());
        DownOnce(pri, v, i);
        v := Swapped(v, i, child);
        SetSlot(i, d[child]);
        i := child;
        child := MaxChild(i);
        SameChild(pri, Slots(), v, i);
      }
      SiftEnds(s, v, pos, i, moving, Slots());
      SetSlot(i, moving);
      BelowIsOrdered(pri, v, i);
    }

    /** maxchild: the child of the better priority. */
    method MaxChild(i: nat) returns (c: nat)
      requires Shaped() && 1 <= i
      ensures c == SmallerChild(pri, Slots(), i)
    {
      c := 2 * i;
      if c >= size { return 0; }
      if c + 1 < size && pri(d[c]) > pri(d[c + 1]) { c := c + 1; }
    }

    /** realloc by another step. */
    method Grow()
      requires Shaped()
      modifies this`d
      ensures Shaped() && fresh(d) && d.Length > size && Slots() == old(Slots())
    {
      var smaller, bigger := d, new Element[size + step];
      for k := 0 to size
        invariant forall j | 0 <= j < k :: bigger[j] == smaller[j]
      {
        bigger[k] := smaller[k];
      }
      d := bigger;
    }

    method Insert(e: Element)
      requires Valid() && e !in Contents()
      modifies this, d
      ensures Valid() && Contents() == old(Contents()) + multiset{e}
      ensures d == old(d) || fresh(d)
    {
      if size >= d.Length { Grow(); }
      ghost var s := Slots();
      d[size] := e;
      size := size + 1;
      assert Slots() == s + [e];
      InsertKeeps(pri, s, pos, e);
      BubbleUp(size - 1);
    }

    method Remove(e: Element)
      requires Valid() && (size > 1 ==> e in Contents())
      modifies this`size, this`pos, d
      ensures Valid() && Contents() == old(Contents()) - multiset{e}
    {
      if size == 1 { return; }
      PositionOf(Slots(), pos, e);
      var posn := pos[e];
      TakeLast(posn);
      // the last element itself: what the source then sifts lies outside the heap
      if posn < size {
        if pri(e) > pri(d[posn]) {
          BubbleUp(posn);
        } else {
          PercolateDown(posn);
        }
      }
    }

    /** Moving the last element over the one at position at. */
    method TakeLast(at: nat)
      requires Valid() && 1 <= at < size
      modifies this`size, d
      ensures Shaped() && size == old(size) - 1 && Slots() == Closed(old(Slots()), at)
      ensures Contents() == old(Contents()) - multiset{old(d[at])} && Loose(pri, Slots(), pos, at, old(d[at]))
    {
      RemoveKeeps(pri, Slots(), pos, at);
      size := size - 1;
      d[at] := d[size];
    }

    /** pqueue_tag_remove_up_to: exactly the elements of priority at most limit (and below forever) go. */
    method RemoveUpTo(limit: int, forever: int)
      requires Valid()
      modifies this`size, this`pos, d
      ensures Valid() && WithoutUpTo(pri, old(Contents()), Contents(), limit, forever)
    {
      ghost var gone := multiset{};
      while size > 1 && pri(d[1]) < forever && pri(d[1]) <= limit
        invariant Valid() && Contents() + gone == old(Contents())
        invariant forall e | e in gone :: pri(e) <= limit && pri(e) < forever
        decreases size
      {
        var e, found := Pop();
        gone := gone + multiset{e};
      }
      if size > 1 { LeastOf(pri, Slots()); }
      WithoutUpToIs(pri, Contents(), gone, limit, forever);
    }

    method Pop() returns (e: Element, found: bool)
      requires Valid()
      modifies this`size, this`pos, d
      ensures Valid() && found == (old(Contents()) != multiset{})
      ensures found ==> e == old(d[1]) && size == old(size) - 1
      ensures found ==> e in old(Contents()) && Contents() == old(Contents()) - multiset{e}
      ensures found ==> forall x | x in old(Contents()) :: pri(e) <= pri(x)
      ensures !found ==> Contents() == old(Contents())
    {
      e, found := 0, size > 1;
      if !found { return; }
      LeastOf(pri, Slots());
      e := d[1];
      TakeLast(1);
      if size > 1 {
        RootGoesDown(pri, Slots());
        PercolateDown(1);
      }
    }
  }

  /** pqueue_empty_into: the smaller queue is poured into the larger, and the two change roles if
      the larger was the source. */
  method EmptyInto(dest: PQueue, src: PQueue) returns (filled: PQueue, emptied: PQueue)
    requires dest.Valid() && src.Valid() && dest != src && dest.d != src.d
    requires Apart(dest.Contents(), src.Contents()) && Apart(src.Contents(), dest.Contents())
    modifies dest, src, dest.d, src.d
    ensures (filled, emptied) == (dest, src) || (filled, emptied) == (src, dest)
    ensures filled.Valid() && emptied.Valid()
    ensures filled.Contents() == old(dest.Contents()) + old(src.Contents()) && emptied.Contents() == multiset{}
  {
    if dest.size >= src.size {
      Pour(src, dest);
      filled, emptied := dest, src;
    } else {
      Pour(dest, src);
      filled, emptied := src, dest;
    }
  }

  method Pour(from: PQueue, to: PQueue)
    requires from.Valid() && to.Valid() && from != to && from.d != to.d
    requires Apart(from.Contents(), to.Contents())
    modifies from, to, from.d, to.d
    ensures from.Valid() && to.Valid()
    ensures to.Contents() == old(from.Contents()) + old(to.Contents()) && from.Contents() == multiset{}
  {
    while from.size > 1
      invariant from.Valid() && to.Valid() && from.d != to.d && from.d == old(from.d) && (to.d == old(to.d) || fresh(to.d))
      invariant Apart(from.Contents(), to.Contents())
      invariant from.Contents() + to.Contents() == old(from.Contents()) + old(to.Contents())
      decreases from.size
    {
      PourItem(from, to);
    }
  }

  method PourItem(from: PQueue, to: PQueue)
    requires from.Valid() && to.Valid() && from != to && from.d != to.d && from.size > 1
    requires Apart(from.Contents(), to.Contents())
    modifies from, to, from.d, to.d
    ensures from.Valid() && to.Valid() && from.d == old(from.d) && (to.d == old(to.d) || fresh(to.d))
    ensures Apart(from.Contents(), to.Contents()) && from.size == old(from.size) - 1
    ensures from.Contents() + to.Contents() == old(from.Contents()) + old(to.Contents())
  {
    Distinct(from.Slots(), from.pos);
    ghost var a, b := from.Contents(), to.Contents();
    var item, found := from.Pop();
    PourOne(a, b, item);
    to.Insert(item);
  }

  ghost predicate Apart(a: multiset<Element>, b: multiset<Element>) { forall e | e in a :: e !in b }

  lemma PourOne(a: multiset<Element>, b: multiset<Element>, e: Element)
    requires Apart(a, b) && e in a && a[e] <= 1
    ensures Apart(a - multiset{e}, b + multiset{e}) && e !in b
    ensures a - multiset{e} + (b + multiset{e}) == a + b
  {
  }

  /** after is before without the elements of priority at most limit and below forever. */
  ghost predicate WithoutUpTo(pri: Priority, before: multiset<Element>, after: multiset<Element>, limit: int, forever: int) {
    forall e: Element :: after[e] == if pri(e) <= limit && pri(e) < forever then 0 else before[e]
  }

  lemma WithoutUpToIs(pri: Priority, left: multiset<Element>, gone: multiset<Element>, limit: int, forever: int)
    requires forall e | e in gone :: pri(e) <= limit && pri(e) < forever
    requires forall e | e in left :: !(pri(e) <= limit && pri(e) < forever)
    ensures WithoutUpTo(pri, left + gone, left, limit, forever)
  {
  }

  lemma LeastOf(pri: Priority, s: seq<Element>)
    requires Ordered(pri, s) && |s| > 1
    ensures s[1] in multiset(s[1..]) && forall x | x in multiset(s[1..]) :: pri(s[1]) <= pri(x)
  {
    assert s[1..][0] == s[1];
    forall x | x in multiset(s[1..]) ensures pri(s[1]) <= pri(x) {
      var k :| 0 <= k < |s[1..]| && s[1..][k] == x;
      RootIsLeast(pri, s, k + 1);
    }
  }

  /** Stored positions tell elements apart. */
  lemma Distinct(s: seq<Element>, pos: map<Element, nat>)
    requires |s| >= 1 && Placed(s, pos)
    ensures forall e :: multiset(s[1..])[e] <= 1
  {
    var t := s[1..];
    forall i, j | 0 <= i < j < |t| ensures t[i] != t[j] { assert t[i] == s[i + 1] && t[j] == s[j + 1]; }
    DistinctCount(t);
  }

  lemma {:induction false} DistinctCount(t: seq<Element>)
    requires forall i, j | 0 <= i < j < |t| :: t[i] != t[j]
    ensures forall e :: multiset(t)[e] <= 1
  {
    if t != [] {
      var init, last := t[..|t| - 1], t[|t| - 1];
      DistinctCount(init);
      assert t == init + [last];
      assert last !in multiset(init) by {
        forall i | 0 <= i < |init| ensures init[i] != last { assert t[i] == init[i]; }
      }
    }
  }

  lemma PositionOf(s: seq<Element>, pos: map<Element, nat>, e: Element)
    requires |s| > 1 && Placed(s, pos) && e in multiset(s[1..])
    ensures e in pos && 1 <= pos[e] < |s| && s[pos[e]] == e
  {
    var k :| 0 <= k < |s[1..]| && s[1..][k] == e;
    assert s[k + 1] == e;
  }

  lemma RootGoesDown(pri: Priority, s: seq<Element>)
    requires |s| > 1 && (OrderedAbove(pri, s, 1) || OrderedBelow(pri, s, 1))
    ensures OrderedBelow(pri, s, 1)
  {
  }

  lemma SameChild(pri: Priority, a: seq<Element>, v: seq<Element>, i: nat)
    requires 1 <= i < |v| && SameBut(a, v, i)
    ensures SmallerChild(pri, a, i) == SmallerChild(pri, v, i)
  {
  }

  lemma InsertKeeps(pri: Priority, s: seq<Element>, pos: map<Element, nat>, e: Element)
    requires |s| >= 1 && Ordered(pri, s) && Placed(s, pos) && e !in multiset(s[1..])
    ensures OrderedAbove(pri, s + [e], |s|) && PlacedBut(s + [e], pos, |s|)
    ensures multiset((s + [e])[1..]) == multiset(s[1..]) + multiset{e}
  {
    assert (s + [e])[1..] == s[1..] + [e];
    forall k | 1 <= k < |s| ensures s[k] != e { assert s[1..][k - 1] == s[k]; }
  }

  lemma AboveIsOrdered(pri: Priority, s: seq<Element>, i: nat)
    requires 1 <= i < |s| && OrderedAbove(pri, s, i) && (i == 1 || pri(s[i / 2]) <= pri(s[i]))
    ensures Ordered(pri, s)
  {
  }

  lemma BelowIsOrdered(pri: Priority, s: seq<Element>, i: nat)
    requires 1 <= i < |s| && OrderedBelow(pri, s, i)
    requires var c := SmallerChild(pri, s, i); c == 0 || pri(s[i]) <= pri(s[c])
    ensures Ordered(pri, s)
  {
  }

  /** Without the element at position at: the last one takes its place. */
  function Closed(s: seq<Element>, at: nat): seq<Element>
    requires 1 <= at < |s|
  {
    var n := |s| - 1;
    if at == n then s[..n] else s[..n][at := s[n]]
  }

  /** A heap whose element at position at, if it is within, may have to go up or down. */
  ghost predicate Loose(pri: Priority, t: seq<Element>, pos: map<Element, nat>, at: nat, was: Element) {
    if at >= |t| then Ordered(pri, t) && Placed(t, pos)
    else PlacedBut(t, pos, at) && (if pri(was) > pri(t[at]) then OrderedAbove(pri, t, at) else OrderedBelow(pri, t, at))
  }

  /** Taking the last element to position at, off the end. */
  lemma RemoveKeeps(pri: Priority, s: seq<Element>, pos: map<Element, nat>, at: nat)
    requires 1 <= at < |s| && Ordered(pri, s) && Placed(s, pos)
    ensures Loose(pri, Closed(s, at), pos, at, s[at])
    ensures multiset(Closed(s, at)[1..]) == multiset(s[1..]) - multiset{s[at]}
  {
    var n := |s| - 1;
    ClosedElements(s, at);
    if at < n {
      var t := Closed(s, at);
      forall k | 1 <= k < n && k != at ensures t[k] in pos && pos[t[k]] == k && t[k] != t[at] { assert pos[s[n]] == n; }
      RemoveOrder(pri, s, at);
    }
  }

  lemma ClosedElements(s: seq<Element>, at: nat)
    requires 1 <= at < |s|
    ensures multiset(Closed(s, at)[1..]) == multiset(s[1..]) - multiset{s[at]}
  {
    var n := |s| - 1;
    assert s[1..] == s[..n][1..] + [s[n]];
    if at < n { assert Closed(s, at)[1..] == s[..n][1..][at - 1 := s[n]]; }
  }

  lemma RemoveOrder(pri: Priority, s: seq<Element>, at: nat)
    requires 1 <= at < |s| - 1 && Ordered(pri, s)
    ensures var t := s[..|s| - 1][at := s[|s| - 1]];
      if pri(s[at]) > pri(t[at]) then OrderedAbove(pri, t, at) else OrderedBelow(pri, t, at)
  {
    var t := s[..|s| - 1][at := s[|s| - 1]];
    forall k | 2 <= k < |t| && k / 2 == at ensures pri(s[at]) <= pri(t[k]) && (at > 1 ==> pri(t[at / 2]) <= pri(t[k])) {
      assert pri(s[k / 2]) <= pri(s[k]);
      assert at > 1 ==> pri(s[at / 2]) <= pri(s[at]);
    }
    assert at > 1 ==> pri(s[at / 2]) <= pri(s[at]);
    forall k | 2 <= k < |t| && k != at && k / 2 != at ensures pri(t[k / 2]) <= pri(t[k]) { assert pri(s[k / 2]) <= pri(s[k]); }
  }
}
