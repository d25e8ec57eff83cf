/** The decision record as text: what a completed run writes and what a replay loads. */
module MsRecord {
  import opened Wrappers
  import opened MsTypes
  import opened MsText
  import opened MsReplay

  // ---- writing ----

  function Kind(l: Line): char {
    match l
    case D(_) => 'D'
    case X(_) => 'X'
    case C(_, _, _) => 'C'
    case R(_) => 'R'
    case M(_, _, _, _, _, _) => 'M'
    case G(_, _, _, _) => 'G'
    case E(_, _, _) => 'E'
  }

  function FieldsOf(l: Line): (ns: seq<int>)
    ensures 0 < |ns| <= 6
  {
    match l
    case D(k) => [k.env, k.elapsed, k.microstep, k.reaction]
    case X(k) => [k.env, k.elapsed, k.microstep, k.reaction]
    case C(q, b, recv) => [q, b, recv]
    case R(recv) => [recv]
    case M(q, b, elapsed, m, recv, apply) => [q, b, elapsed, m, recv, apply]
    case G(elapsed, m, on, lag) => [elapsed, m, if on then 1 else 0, lag]
    case E(d, x, pending) => [d, x, pending]
  }

  function RenderLine(l: Line): string { [Kind(l), ','] + Join(FieldsOf(l)) + "\n" }

  function Render(lines: seq<Line>): string {
    if lines == [] then "" else RenderLine(lines[0]) + Render(lines[1..])
  }

  // ---- reading ----

  datatype Loaded = Loaded(complete: bool, wantD: int, wantX: int, d: seq<Key>, x: seq<Key>)

  /** fgets into 256 characters: through the newline, at most 255, or to the end of the file. */
  function LineLength(s: string, room: nat): (n: nat)
    ensures n <= |s| && n <= room && (s != [] && room > 0 ==> n > 0)
    decreases room
  {
    if s == [] || room == 0 then 0
    else if s[0] == '\n' then 1
    else 1 + LineLength(s[1..], room - 1)
  }

  /** The key a D or X line names; the two unsigned fields wrap at their widths. */
  function KeyFrom(ns: seq<int>): Key
    requires |ns| == 4
  {
    Key(ns[0], ns[1], ns[2] % 0x1_0000_0000, ns[3] % 0x1_0000_0000_0000_0000)
  }

  /** One iteration of the loop of _ms_load_replay; None stands for the fatal stop. */
  function LoadLine(st: Loaded, line: string): Option<Loaded>
    requires line != []
  {
    var c := line[0];
    if c == '\n' || c == '\r' || c == '\0' then Some(st)
    else if c == 'C' || c == 'M' || c == 'R' || c == 'G' then Some(st)
    else if |line| < 2 || line[1] != ',' then None
    else if c == 'E' then
      var f := ReadFields(line[2..], 3);
      if f.None? then None
      else Some(st.(complete := true, wantD := f.value[0], wantX := f.value[1]))
    else
      var f := ReadFields(line[2..], 4);
      if f.None? then None
      else if c == 'D' then Some(st.(d := st.d + [KeyFrom(f.value)]))
      else if c == 'X' then Some(st.(x := st.x + [KeyFrom(f.value)]))
      else None
  }

  function LoadLines(st: Loaded, s: string): Option<Loaded>
    decreases |s|
  {
    if s == [] then Some(st)
    else
      var n := LineLength(s, 255);
      var next := LoadLine(st, s[..n]);
      if next.None? then None else LoadLines(next.value, s[n..])
  }

  /** qsort by key. */
  function Insert(k: Key, s: seq<Key>): seq<Key> {
    if s == [] || !Less(s[0], k) then [k] + s else [s[0]] + Insert(k, s[1..])
  }

  function SortKeys(s: seq<Key>): seq<Key> {
    if s == [] then [] else Insert(s[0], SortKeys(s[1..]))
  }

  predicate Repeats(s: seq<Key>) { exists i :: 0 < i < |s| && s[i - 1] == s[i] }

  const START := Loaded(false, -1, -1, [], [])

  /** The whole loader: the sorted D and X keys, or None for a refused record. */
  function Load(text: string): Option<(seq<Key>, seq<Key>)> {
    var st := LoadLines(START, text);
    if st.None? then None
    else Finish(st.value)
  }

  function Finish(st: Loaded): Option<(seq<Key>, seq<Key>)> {
    if !st.complete || st.wantD != |st.d| || st.wantX != |st.x| then None
    else
      var d, x := SortKeys(st.d), SortKeys(st.x);
      if Repeats(d) || Repeats(x) then None else Some((d, x))
  }

  /** fgets and the body of the loop: the state after the line that starts at a position, and where the
      next one starts. */
  method LoadNext(st: Loaded, text: string, at: nat) returns (next: Option<Loaded>, end: nat)
    requires at < |text|
    ensures at < end <= |text|
    ensures LoadLines(st, text[at..]) == if next.None? then None else LoadLines(next.value, text[end..])
  {
    var n := LineLength(text[at..], 255);
    end := at + n;
    next := LoadLine(st, text[at..][..n]);
    assert text[at..][n..] == text[end..];
  }

  /** _ms_load_replay, line by line. */
  method LoadReplay(text: string) returns (r: Option<(seq<Key>, seq<Key>)>)
    ensures r == Load(text)
  {
    var st, at := START, 0;
    assert text[0..] == text;
    while at < |text|
      invariant at <= |text|
      invariant LoadLines(START, text) == LoadLines(st, text[at..])
    {
      var next, end := LoadNext(st, text, at);
      if next.None? { return None; }
      st, at := next.value, end;
    }
    assert text[at..] == [];
    r := Finish(st);
  }

  // ---- sorting ----

  ghost predicate Ordered(s: seq<Key>) { forall i, j | 0 <= i < j < |s| :: !Less(s[j], s[i]) }

  lemma {:induction false} InsertOrders(k: Key, s: seq<Key>)
    requires Ordered(s)
    ensures Ordered(Insert(k, s)) && multiset(Insert(k, s)) == multiset(s) + multiset{k}
  {
    if s != [] && Less(s[0], k) {
      var tail := s[1..];
      var rest := Insert(k, tail);
      InsertOrders(k, tail);
      assert s == [s[0]] + tail;
      forall x | x in tail ensures !Less(x, s[0]) {
        var i :| 0 <= i < |tail| && tail[i] == x;
        assert x == s[i + 1];
      }
      forall i | 0 <= i < |rest| ensures !Less(rest[i], s[0]) {
        assert rest[i] in multiset(rest);
        assert rest[i] == k || rest[i] in tail;
      }
    } else {
      assert Insert(k, s) == [k] + s;
      forall j | 0 <= j < |s| ensures !Less(s[j], k) { assert !Less(s[0], k); }
    }
  }

  lemma {:induction false} SortOrders(s: seq<Key>)
    ensures Ordered(SortKeys(s)) && multiset(SortKeys(s)) == multiset(s)
  {
    if s != [] {
      SortOrders(s[1..]);
      InsertOrders(s[0], SortKeys(s[1..]));
      assert s == [s[0]] + s[1..];
    }
  }

  /** The neighbour test of _ms_replay_finish finds a duplicate if there is one. */
  lemma OrderedRepeats(s: seq<Key>)
    requires Ordered(s)
    ensures !Repeats(s) ==> Sorted(s)
  {
    if !Repeats(s) {
      forall i, j | 0 <= i < j < |s| ensures Less(s[i], s[j]) { Climbs(s, i, j); }
    }
  }

  lemma {:induction false} Climbs(s: seq<Key>, i: nat, j: nat)
    requires Ordered(s) && !Repeats(s) && i < j < |s|
    ensures Less(s[i], s[j])
    decreases j - i
  {
    assert s[j - 1] != s[j] && !Less(s[j], s[j - 1]);
    if i < j - 1 { Climbs(s, i, j - 1); }
  }
}
