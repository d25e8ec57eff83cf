/** Loading what was written gives it back, and a record cut short is refused. */
module MsRecordTheorem {
  import opened Wrappers
  import opened MsTypes
  import opened MsText
  import opened MsReplay
  import opened MsRecord

  /** The machine widths of what is written. */
  ghost predicate Writable(l: Line) {
    && (forall i | 0 <= i < |FieldsOf(l)| :: Printable(FieldsOf(l)[i]))
    && (l.D? || l.X? ==> l.key.microstep < 0x1_0000_0000 && l.key.reaction < 0x1_0000_0000_0000_0000)
  }

  /** The lines of a run before its end line. */
  ghost predicate Body(lines: seq<Line>) { forall i | 0 <= i < |lines| :: Writable(lines[i]) && !lines[i].E? }

  function EndOf(lines: seq<Line>, pending: int): Line { E(|DKeys(lines)|, |XKeys(lines)|, pending) }

  // ---- fgets ----

  predicate OneLine(a: string) { forall i | 0 <= i < |a| :: a[i] != '\n' }

  lemma {:induction false} LineLengthIs(a: string, rest: string, room: nat)
    requires OneLine(a) && |a| < room
    ensures LineLength(a + "\n" + rest, room) == |a| + 1
  {
    var s := a + "\n" + rest;
    if a != [] {
      assert s[1..] == a[1..] + "\n" + rest;
      LineLengthIs(a[1..], rest, room - 1);
    }
  }

  lemma {:induction false} LineLengthAll(a: string, room: nat)
    requires OneLine(a) && |a| <= room
    ensures LineLength(a, room) == |a|
  {
    if a != [] { LineLengthAll(a[1..], room - 1); }
  }

  function Front(l: Line): string { [Kind(l), ','] + Join(FieldsOf(l)) }

  /** Every line fits the buffer and holds one newline, at its end. */
  lemma FrontFits(l: Line)
    requires Writable(l)
    ensures OneLine(Front(l)) && |Front(l)| <= 128 && RenderLine(l) == Front(l) + "\n"
    ensures Front(l)[0] == Kind(l) && Front(l)[1] == ',' && Front(l)[2..] == Join(FieldsOf(l))
  {
    JoinLength(FieldsOf(l));
    var f := Front(l);
    forall i | 0 <= i < |f| ensures f[i] != '\n' {
      if i >= 2 { assert f[i] == Join(FieldsOf(l))[i - 2]; }
    }
  }

  // ---- one written line ----

  function Take(st: Loaded, l: Line): Loaded {
    st.(d := st.d + if l.D? then [l.key] else [], x := st.x + if l.X? then [l.key] else [])
  }

  lemma LoadOwnLine(st: Loaded, l: Line)
    requires Writable(l) && !l.E?
    ensures LoadLine(st, RenderLine(l)) == Some(Take(st, l))
  {
    FrontFits(l);
    var line := RenderLine(l);
    assert line[0] == Kind(l) && line[1] == ',' && line[2..] == Join(FieldsOf(l)) + "\n";
    ReadFieldsOf(FieldsOf(l), "\n");
    if l.D? || l.X? { assert KeyFrom(FieldsOf(l)) == l.key; }
    assert st.d + [] == st.d && st.x + [] == st.x;
  }

  lemma LoadNext(st: Loaded, l: Line, rest: string)
    requires Writable(l) && !l.E?
    ensures LoadLines(st, RenderLine(l) + rest) == LoadLines(Take(st, l), rest)
  {
    FrontFits(l);
    var s, n := RenderLine(l) + rest, |RenderLine(l)|;
    assert s == Front(l) + "\n" + rest;
    LineLengthIs(Front(l), rest, 255);
    assert s[..n] == RenderLine(l) && s[n..] == rest;
    LoadOwnLine(st, l);
  }

  function TakeAll(st: Loaded, lines: seq<Line>): Loaded {
    st.(d := st.d + DKeys(lines), x := st.x + XKeys(lines))
  }

  lemma TakeFirst(st: Loaded, lines: seq<Line>)
    requires lines != []
    ensures TakeAll(Take(st, lines[0]), lines[1..]) == TakeAll(st, lines)
  {
    var l := lines[0];
    KeysOne(l);
    KeysConcat([l], lines[1..]);
    assert lines == [l] + lines[1..];
    Regroup(st.d, DKeys([l]), DKeys(lines[1..]));
    Regroup(st.x, XKeys([l]), XKeys(lines[1..]));
  }

  lemma KeysOne(l: Line)
    ensures DKeys([l]) == (if l.D? then [l.key] else []) && XKeys([l]) == if l.X? then [l.key] else []
  {
    KeysAppend([], l);
    assert [] + [l] == [l];
  }

  lemma {:induction false} LoadBody(st: Loaded, lines: seq<Line>, rest: string)
    requires Body(lines)
    ensures LoadLines(st, Render(lines) + rest) == LoadLines(TakeAll(st, lines), rest)
    decreases |lines|
  {
    if lines == [] {
      assert Render(lines) + rest == rest;
      assert TakeAll(st, lines) == st;
    } else {
      assert Render(lines) + rest == RenderLine(lines[0]) + (Render(lines[1..]) + rest);
      LoadNext(st, lines[0], Render(lines[1..]) + rest);
      LoadBody(Take(st, lines[0]), lines[1..], rest);
      TakeFirst(st, lines);
    }
  }

  // ---- the end line, whole or cut ----

  lemma LoadOneLine(st: Loaded, s: string)
    requires s != [] && LineLength(s, 255) == |s|
    ensures LoadLines(st, s) == LoadLine(st, s)
  {
    assert s[..|s|] == s && s[|s|..] == [];
  }

  function Ended(st: Loaded, e: Line): Loaded
    requires e.E?
  {
    st.(complete := true, wantD := e.sheds, wantX := e.violations)
  }

  lemma LoadWholeEnd(st: Loaded, e: Line)
    requires e.E? && Writable(e)
    ensures LoadLines(st, RenderLine(e)) == Some(Ended(st, e))
  {
    FrontFits(e);
    var s := RenderLine(e);
    assert s == Front(e) + "\n" + "";
    LineLengthIs(Front(e), "", 255);
    LoadOneLine(st, s);
    assert s[0] == 'E' && s[1] == ',' && s[2..] == Join(FieldsOf(e)) + "\n";
    ReadFieldsOf(FieldsOf(e), "\n");
  }

  lemma LoadCutEnd(st: Loaded, e: Line, k: nat)
    requires e.E? && Writable(e) && 0 < k <= |Front(e)|
    ensures LoadLines(st, Front(e)[..k]) == if k > 2 + LastDigitStart(FieldsOf(e)) then Some(Ended(st, e)) else None
  {
    FrontFits(e);
    var s := Front(e)[..k];
    LineLengthAll(s, 255);
    LoadOneLine(st, s);
    if k >= 2 { LoadCutFields(st, e, k); }
  }

  lemma LoadCutFields(st: Loaded, e: Line, k: nat)
    requires e.E? && Writable(e) && 2 <= k <= |Front(e)|
    ensures LoadLine(st, Front(e)[..k]) == if k > 2 + LastDigitStart(FieldsOf(e)) then Some(Ended(st, e)) else None
  {
    FrontFits(e);
    var s, fields := Front(e)[..k], FieldsOf(e);
    assert s[0] == 'E' && s[1] == ',' && s[2..] == Join(fields)[..k - 2];
    assert CutReads(fields, k - 2) by { ReadFieldsCut(fields, k - 2); }
    if k > 2 + LastDigitStart(fields) { FirstTwo(ReadFields(s[2..], 3).value, fields); }
  }

  lemma FirstTwo(r: seq<int>, ns: seq<int>)
    requires |r| == |ns| == 3 && r[..2] == ns[..2]
    ensures r[0] == ns[0] && r[1] == ns[1]
  {
    assert r[0] == r[..2][0] && r[1] == r[..2][1];
  }

  /** The end line cut to k characters is read as one exactly when a digit of its last field is left. */
  lemma LoadEnd(st: Loaded, e: Line, k: nat)
    requires e.E? && Writable(e) && 0 < k <= |RenderLine(e)|
    ensures LoadLines(st, RenderLine(e)[..k]) ==
            if k > 2 + LastDigitStart(FieldsOf(e)) then Some(Ended(st, e)) else None
  {
    FrontFits(e);
    LastDigitWithin(FieldsOf(e));
    if k == |RenderLine(e)| {
      assert RenderLine(e)[..k] == RenderLine(e);
      LoadWholeEnd(st, e);
    } else {
      assert RenderLine(e)[..k] == Front(e)[..k];
      LoadCutEnd(st, e, k);
    }
  }

  // ---- a cut before the end line ----

  lemma OtherLinesDoNotComplete(st: Loaded, line: string)
    requires line != [] && line[0] != 'E'
    ensures LoadLine(st, line).Some? ==> LoadLine(st, line).value.complete == st.complete
  {
  }

  lemma LoadPartOfLine(st: Loaded, l: Line, n: nat)
    requires Writable(l) && !l.E? && 0 < n <= |Front(l)| && !st.complete
    ensures var r := LoadLines(st, Front(l)[..n]); r.Some? ==> !r.value.complete
  {
    FrontFits(l);
    var s := Front(l)[..n];
    LineLengthAll(s, 255);
    LoadOneLine(st, s);
    OtherLinesDoNotComplete(st, s);
  }

  lemma {:induction false} LoadPartOfBody(st: Loaded, lines: seq<Line>, n: nat)
    requires Body(lines) && n <= |Render(lines)| && !st.complete
    ensures var r := LoadLines(st, Render(lines)[..n]); r.Some? ==> !r.value.complete
    decreases |lines|
  {
    if n > 0 {
      var l, rest := lines[0], Render(lines[1..]);
      var len := |RenderLine(l)|;
      FrontFits(l);
      Prefix(RenderLine(l), rest, n);
      if n < len {
        Prefix(Front(l), "\n", n);
        LoadPartOfLine(st, l, n);
      } else {
        PrefixOfAll(RenderLine(l), rest, n);
        LoadNext(st, l, rest[..n - len]);
        LoadPartOfBody(Take(st, l), lines[1..], n - len);
      }
    }
  }

  lemma PrefixOfAll(a: string, b: string, n: nat)
    requires |a| <= n <= |a + b|
    ensures (a + b)[..n] == a + b[..n - |a|]
  {
    Prefix(a, b, n);
  }

  // ---- the theorems ----

  /** What a loader must return for given D and X lines. */
  ghost predicate Gives(r: Option<(seq<Key>, seq<Key>)>, d: seq<Key>, x: seq<Key>) {
    if Distinct(d) && Distinct(x)
    then r.Some? && Sorted(r.value.0) && Sorted(r.value.1) && multiset(r.value.0) == multiset(d) && multiset(r.value.1) == multiset(x)
    else r.None?
  }

  lemma RepeatsIff(s: seq<Key>)
    ensures Repeats(SortKeys(s)) <==> !Distinct(s)
    ensures !Repeats(SortKeys(s)) ==> Sorted(SortKeys(s))
    ensures multiset(SortKeys(s)) == multiset(s)
  {
    SortOrders(s);
    OrderedRepeats(SortKeys(s));
    if Distinct(s) {
      CountOnce(s, SortKeys(s));
    } else if !Repeats(SortKeys(s)) {
      CountOnce(SortKeys(s), s);
    }
  }

  lemma CountOnce(a: seq<Key>, b: seq<Key>)
    requires Distinct(a) && multiset(a) == multiset(b)
    ensures Distinct(b) && !Repeats(b)
  {
    DistinctCount(a);
    forall i, j | 0 <= i < j < |b| ensures b[i] != b[j] { TwoPlaces(b, i, j); }
  }

  lemma TwoPlaces(b: seq<Key>, i: nat, j: nat)
    requires i < j < |b|
    ensures b[i] == b[j] ==> multiset(b)[b[i]] >= 2
  {
    assert b == b[..j] + b[j..];
    assert b[i] in multiset(b[..j]) && b[j] in multiset(b[j..]);
  }

  /** Round trip: loading the record of a completed run yields exactly its D and X keys, sorted,
      and every other line is ignored; a record that names a key twice is refused. */
  lemma RoundTrip(lines: seq<Line>, pending: int)
    requires Body(lines) && Writable(EndOf(lines, pending))
    ensures Gives(Load(Render(lines + [EndOf(lines, pending)])), DKeys(lines), XKeys(lines))
  {
    var e := EndOf(lines, pending);
    var text := Render(lines + [e]);
    CutExactly(lines, pending, |text|);
    RenderAppend(lines, e);
    FrontFits(e);
    LastDigitWithin(FieldsOf(e));
    assert text[..|text|] == text;
  }

  lemma {:induction false} RenderAppend(lines: seq<Line>, l: Line)
    ensures Render(lines + [l]) == Render(lines) + RenderLine(l)
  {
    var more := lines + [l];
    if lines != [] {
      var rest := lines[1..];
      RenderAppend(rest, l);
      assert more[1..] == rest + [l] && more[0] == lines[0];
      Regroup(RenderLine(lines[0]), Render(rest), RenderLine(l));
    } else {
      assert more[1..] == [] && more[0] == l;
    }
  }

  /** A record cut to n characters is accepted exactly when the cut leaves a digit of the last field
      of the end line, and then as if it were whole. */
  lemma CutExactly(lines: seq<Line>, pending: int, n: nat)
    requires Body(lines) && Writable(EndOf(lines, pending)) && n <= |Render(lines + [EndOf(lines, pending)])|
    ensures var text, e := Render(lines + [EndOf(lines, pending)]), EndOf(lines, pending);
      if n > |Render(lines)| + 2 + LastDigitStart(FieldsOf(e))
      then Gives(Load(text[..n]), DKeys(lines), XKeys(lines))
      else Load(text[..n]) == None
  {
    var e, body := EndOf(lines, pending), Render(lines);
    RenderAppend(lines, e);
    FrontFits(e);
    LastDigitWithin(FieldsOf(e));
    Prefix(body, RenderLine(e), n);
    if n <= |body| {
      LoadPartOfBody(START, lines, n);
    } else {
      CutInEnd(lines, e, n - |body|);
    }
  }

  /** The whole body and k characters of the end line. */
  lemma CutInEnd(lines: seq<Line>, e: Line, k: nat)
    requires Body(lines) && Writable(e) && e.E? && e.sheds == |DKeys(lines)| && e.violations == |XKeys(lines)|
    requires 0 < k <= |RenderLine(e)|
    ensures var r := Load(Render(lines) + RenderLine(e)[..k]);
      if k > 2 + LastDigitStart(FieldsOf(e)) then Gives(r, DKeys(lines), XKeys(lines)) else r == None
  {
    LoadBody(START, lines, RenderLine(e)[..k]);
    LoadEnd(TakeAll(START, lines), e, k);
    FinishGives(Ended(TakeAll(START, lines), e), lines);
  }

  lemma FinishGives(st: Loaded, lines: seq<Line>)
    requires st == Loaded(true, |DKeys(lines)|, |XKeys(lines)|, [] + DKeys(lines), [] + XKeys(lines))
    ensures Gives(Finish(st), DKeys(lines), XKeys(lines))
  {
    assert [] + DKeys(lines) == DKeys(lines) && [] + XKeys(lines) == XKeys(lines);
    RepeatsIff(DKeys(lines));
    RepeatsIff(XKeys(lines));
  }

  // ---- records that were changed ----

  lemma LoadCompleted(lines: seq<Line>, e: Line)
    requires Body(lines) && e.E? && Writable(e)
    ensures Load(Render(lines + [e])) == Finish(Ended(TakeAll(START, lines), e))
  {
    RenderAppend(lines, e);
    LoadBody(START, lines, RenderLine(e));
    LoadWholeEnd(TakeAll(START, lines), e);
  }

  /** Whatever the end line says: the record is accepted exactly when the counts in it are those of the
      D and X lines and no key occurs twice. */
  lemma AcceptedIff(lines: seq<Line>, e: Line)
    requires Body(lines) && e.E? && Writable(e)
    ensures Load(Render(lines + [e])).Some? <==>
            e.sheds == |DKeys(lines)| && e.violations == |XKeys(lines)| && Distinct(DKeys(lines)) && Distinct(XKeys(lines))
  {
    LoadCompleted(lines, e);
    RepeatsIff(DKeys(lines));
    RepeatsIff(XKeys(lines));
    assert [] + DKeys(lines) == DKeys(lines) && [] + XKeys(lines) == XKeys(lines);
  }

  /** A completed record that lost one of its D or X lines is refused. */
  lemma LostLineIsRefused(lines: seq<Line>, pending: int, i: nat)
    requires Body(lines) && Writable(EndOf(lines, pending)) && i < |lines| && (lines[i].D? || lines[i].X?)
    ensures Load(Render(lines[..i] + lines[i + 1..] + [EndOf(lines, pending)])) == None
  {
    var left := lines[..i] + lines[i + 1..];
    CountWithout(lines, i);
    AcceptedIff(left, EndOf(lines, pending));
  }

  lemma CountWithout(lines: seq<Line>, i: nat)
    requires i < |lines|
    ensures |DKeys(lines[..i] + lines[i + 1..])| == |DKeys(lines)| - if lines[i].D? then 1 else 0
    ensures |XKeys(lines[..i] + lines[i + 1..])| == |XKeys(lines)| - if lines[i].X? then 1 else 0
  {
    var a, b, l := lines[..i], lines[i + 1..], [lines[i]];
    assert lines == a + l + b;
    KeysConcat(a, b);
    KeysConcat(a, l);
    KeysConcat(a + l, b);
    KeysOne(lines[i]);
  }

  /** A line that begins like none of the known kinds stops the loader, wherever it stands. */
  lemma StrangeLineIsRefused(lines: seq<Line>, line: string, rest: string)
    requires Body(lines) && 0 < |line| < 255 && OneLine(line)
    requires forall i | 0 <= i < |KINDS| :: line[0] != KINDS[i]
    ensures Load(Render(lines) + line + "\n" + rest) == None
  {
    var s := line + "\n" + rest;
    assert Render(lines) + line + "\n" + rest == Render(lines) + s;
    LoadBody(START, lines, s);
    StrangeFirst(TakeAll(START, lines), line, rest);
  }

  lemma StrangeFirst(st: Loaded, line: string, rest: string)
    requires 0 < |line| < 255 && OneLine(line) && forall i | 0 <= i < |KINDS| :: line[0] != KINDS[i]
    ensures LoadLines(st, line + "\n" + rest) == None
  {
    var s := line + "\n" + rest;
    LineLengthIs(line, rest, 255);
    StrangeLine(st, s[..|line| + 1]);
  }

  lemma StrangeLine(st: Loaded, line: string)
    requires line != [] && line[0] != '\n' && forall i | 0 <= i < |KINDS| :: line[0] != KINDS[i]
    ensures LoadLine(st, line) == None
  {
    NotAKind(line[0]);
  }

  const KINDS := "DXCRMGE\r\0"

  lemma NotAKind(c: char)
    requires forall i | 0 <= i < |KINDS| :: c != KINDS[i]
    ensures c != 'D' && c != 'X' && c != 'C' && c != 'R' && c != 'M' && c != 'G' && c != 'E' && c != '\r' && c != '\0'
  {
    assert c != KINDS[0] && c != KINDS[1] && c != KINDS[2] && c != KINDS[3] && c != KINDS[4];
    assert c != KINDS[5] && c != KINDS[6] && c != KINDS[7] && c != KINDS[8];
  }

  // ---- the format ----

  /** The fields with a comma before each. */
  function Fields(ns: seq<int>): string { if ns == [] then "" else Fields(ns[..|ns| - 1]) + "," + Decimal(ns[|ns| - 1]) }

  lemma {:induction false} FieldsPrepend(n: int, ns: seq<int>)
    ensures Fields([n] + ns) == "," + Decimal(n) + Fields(ns)
  {
    var all := [n] + ns;
    if ns == [] {
      assert all[..0] == [] && all[0] == n;
    } else {
      assert all[..|all| - 1] == [n] + ns[..|ns| - 1];
      FieldsPrepend(n, ns[..|ns| - 1]);
    }
  }

  lemma {:induction false} JoinIsFields(ns: seq<int>)
    requires ns != []
    ensures "," + Join(ns) == Fields(ns)
  {
    var first, rest := Decimal(ns[0]), ns[1..];
    FieldsPrepend(ns[0], rest);
    assert ns == [ns[0]] + rest;
    if rest != [] {
      JoinIsFields(rest);
      Regroup(first, ",", Join(rest));
      Regroup(",", first, "," + Join(rest));
    }
  }

  /** The lines as they stand in the file: the letter of the kind, and each field after a comma. */
  lemma Format(k: Key, q: int, b: int, t: int, m: nat, recv: int, apply: int, on: bool)
    ensures RenderLine(D(k)) == "D" + Fields([k.env, k.elapsed, k.microstep, k.reaction]) + "\n"
    ensures RenderLine(X(k)) == "X" + Fields([k.env, k.elapsed, k.microstep, k.reaction]) + "\n"
    ensures RenderLine(C(q, b, recv)) == "C" + Fields([q, b, recv]) + "\n" && RenderLine(R(recv)) == "R" + Fields([recv]) + "\n"
    ensures RenderLine(M(q, b, t, m, recv, apply)) == "M" + Fields([q, b, t, m, recv, apply]) + "\n"
    ensures RenderLine(G(t, m, on, recv)) == "G" + Fields([t, m, if on then 1 else 0, recv]) + "\n"
    ensures RenderLine(E(q, b, t)) == "E" + Fields([q, b, t]) + "\n"
  {
    RenderIs(D(k));
    RenderIs(X(k));
    RenderIs(C(q, b, recv));
    RenderIs(R(recv));
    RenderIs(M(q, b, t, m, recv, apply));
    RenderIs(G(t, m, on, recv));
    RenderIs(E(q, b, t));
  }

  lemma RenderIs(l: Line)
    ensures RenderLine(l) == [Kind(l)] + Fields(FieldsOf(l)) + "\n"
  {
    JoinIsFields(FieldsOf(l));
    assert [Kind(l), ','] + Join(FieldsOf(l)) == [Kind(l)] + ("," + Join(FieldsOf(l)));
  }
}
