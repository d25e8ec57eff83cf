/** Decimal fields as fprintf writes them and sscanf reads them. */
module MsText {
  import opened Wrappers

  predicate IsDigit(c: char) { '0' <= c <= '9' }

  predicate IsSpace(c: char) { c == ' ' || '\t' <= c <= '\r' }

  function DigitOf(d: nat): (c: char)
    requires d < 10
    ensures IsDigit(c) && DigitValue(c) == d
  {
    ('0' as int + d) as char
  }

  function DigitValue(c: char): nat
    requires IsDigit(c)
  {
    c as int - '0' as int
  }

  function Digits(n: nat): (s: string)
    ensures |s| > 0 && forall i | 0 <= i < |s| :: IsDigit(s[i])
  {
    if n < 10 then [DigitOf(n)] else Digits(n / 10) + [DigitOf(n % 10)]
  }

  /** %d, %lld, %u and %llu. */
  function Decimal(n: int): (s: string)
    ensures |s| > 0 && forall i | 0 <= i < |s| :: IsDigit(s[i]) || s[i] == '-'
  {
    if n < 0 then "-" + Digits(-n) else Digits(n)
  }

  /** The characters of Decimal(n) before its first digit. */
  function SignLength(n: int): nat { if n < 0 then 1 else 0 }

  /** Comma-separated fields. */
  function Join(ns: seq<int>): string {
    if ns == [] then "" else if |ns| == 1 then Decimal(ns[0]) else Decimal(ns[0]) + "," + Join(ns[1..])
  }

  // ---- reading ----

  function SkipSpace(s: string): string {
    if s != [] && IsSpace(s[0]) then SkipSpace(s[1..]) else s
  }

  /** The longest run of digits, as a number continuing n, and what follows it. */
  function ReadDigits(s: string, n: nat): (nat, string) {
    if s != [] && IsDigit(s[0]) then ReadDigits(s[1..], 10 * n + DigitValue(s[0])) else (n, s)
  }

  /** One integer conversion of sscanf: white space, an optional sign, at least one digit. */
  function ReadInt(s: string): Option<(int, string)> {
    var t := SkipSpace(s);
    var negative := t != [] && t[0] == '-';
    var u := if t != [] && (t[0] == '-' || t[0] == '+') then t[1..] else t;
    if u == [] || !IsDigit(u[0]) then None
    else
      var (n, rest) := ReadDigits(u, 0);
      var v: int := n;
      Some((if negative then -v else v, rest))
  }

  /** n integer conversions separated by literal commas. */
  function ReadFields(s: string, n: nat): (r: Option<seq<int>>)
    ensures r.Some? ==> |r.value| == n
    decreases n
  {
    if n == 0 then Some([])
    else
      var first := ReadInt(s);
      if first.None? then None
      else
        var (v, rest) := first.value;
        if n == 1 then Some([v])
        else if rest == [] || rest[0] != ',' then None
        else
          var more := ReadFields(rest[1..], n - 1);
          if more.None? then None else Some([v] + more.value)
  }

  // ---- round trips ----

  lemma {:induction false} ReadDigitsOf(n: nat, s: string)
    ensures ReadDigits(Digits(n) + s, 0) == ReadDigits(s, n)
  {
    if n < 10 {
      assert (Digits(n) + s)[1..] == s;
    } else {
      var c := [DigitOf(n % 10)];
      ReadDigitsOf(n / 10, c + s);
      assert Digits(n) + s == Digits(n / 10) + (c + s);
      assert (c + s)[1..] == s;
    }
  }

  predicate NoDigitNext(s: string) { s == [] || !IsDigit(s[0]) }

  /** Reading back a written integer that no digit follows. */
  lemma ReadIntOf(n: int, s: string)
    requires NoDigitNext(s)
    ensures ReadInt(Decimal(n) + s) == Some((n, s))
  {
    var t := Decimal(n) + s;
    assert SkipSpace(t) == t;
    if n < 0 {
      assert t[1..] == Digits(-n) + s;
      ReadDigitsOf(-n, s);
    } else {
      ReadDigitsOf(n, s);
    }
  }

  /** A field, a comma and the rest. */
  lemma ReadFieldsStep(s: string, v: int, tail: string, n: nat)
    requires n > 1 && ReadInt(s) == Some((v, "," + tail))
    ensures var more := ReadFields(tail, n - 1);
      ReadFields(s, n) == if more.None? then None else Some([v] + more.value)
  {
    assert ("," + tail)[1..] == tail;
  }

  lemma JoinSplits(ns: seq<int>, s: string)
    requires |ns| > 1
    ensures Join(ns) + s == Decimal(ns[0]) + ("," + (Join(ns[1..]) + s))
  {
    var first, rest := Decimal(ns[0]), Join(ns[1..]);
    Regroup(first + ",", rest, s);
    Regroup(first, ",", rest + s);
  }

  lemma {:induction false} ReadFieldsOf(ns: seq<int>, s: string)
    requires ns != [] && NoDigitNext(s)
    ensures ReadFields(Join(ns) + s, |ns|) == Some(ns)
  {
    if |ns| == 1 {
      ReadIntOf(ns[0], s);
      assert ns == [ns[0]];
    } else {
      ReadFieldsOf(ns[1..], s);
      ReadMoreFields(ns, s);
    }
  }

  lemma ReadMoreFields(ns: seq<int>, s: string)
    requires |ns| > 1 && ReadFields(Join(ns[1..]) + s, |ns| - 1) == Some(ns[1..])
    ensures ReadFields(Join(ns) + s, |ns|) == Some(ns)
  {
    var text := Decimal(ns[0]) + ("," + (Join(ns[1..]) + s));
    assert Join(ns) + s == text by { JoinSplits(ns, s); }
    ReadIntOf(ns[0], "," + (Join(ns[1..]) + s));
    ReadFieldsStep(text, ns[0], Join(ns[1..]) + s, |ns|);
    assert [ns[0]] + ns[1..] == ns;
  }

  // ---- cuts ----

  lemma {:induction false} ReadDigitsAll(s: string, n: nat)
    requires forall i | 0 <= i < |s| :: IsDigit(s[i])
    ensures ReadDigits(s, n).1 == []
  {
    if s != [] { ReadDigitsAll(s[1..], 10 * n + DigitValue(s[0])); }
  }

  /** A cut decimal reads as a number exactly when a digit is left, and nothing follows it. */
  lemma ReadIntCut(n: int, k: nat)
    requires k <= |Decimal(n)|
    ensures ReadInt(Decimal(n)[..k]).Some? <==> k > SignLength(n)
    ensures k > SignLength(n) ==> ReadInt(Decimal(n)[..k]).value.1 == []
  {
    var t := Decimal(n)[..k];
    assert SkipSpace(t) == t;
    if k > SignLength(n) {
      var u := if n < 0 then t[1..] else t;
      assert forall i | 0 <= i < |u| :: IsDigit(u[i]);
      ReadDigitsAll(u, 0);
    }
  }

  /** Where the first digit of the last field is. */
  function LastDigitStart(ns: seq<int>): nat
    requires ns != []
  {
    if |ns| == 1 then SignLength(ns[0]) else |Decimal(ns[0])| + 1 + LastDigitStart(ns[1..])
  }

  lemma {:induction false} LastDigitWithin(ns: seq<int>)
    requires ns != []
    ensures LastDigitStart(ns) < |Join(ns)|
  {
    if |ns| > 1 { LastDigitWithin(ns[1..]); }
  }

  lemma SameButLast(ns: seq<int>, r: seq<int>)
    requires |ns| > 1 && |r| == |ns| - 1 && r[..|ns| - 2] == ns[1..][..|ns| - 2]
    ensures ([ns[0]] + r)[..|ns| - 1] == ns[..|ns| - 1]
  {
    assert ([ns[0]] + r)[..|ns| - 1] == [ns[0]] + r[..|ns| - 2];
    assert ns[..|ns| - 1] == [ns[0]] + ns[1..][..|ns| - 2];
  }

  /** Fields cut to k characters read as that many fields exactly when the cut leaves a digit of the
      last one; all but the last are then read as written. */
  ghost predicate CutReads(ns: seq<int>, k: nat)
    requires ns != [] && k <= |Join(ns)|
  {
    var r := ReadFields(Join(ns)[..k], |ns|);
    && (r.Some? <==> k > LastDigitStart(ns))
    && (r.Some? ==> r.value[..|ns| - 1] == ns[..|ns| - 1])
  }

  lemma {:induction false} ReadFieldsCut(ns: seq<int>, k: nat)
    requires ns != [] && k <= |Join(ns)|
    ensures CutReads(ns, k)
  {
    if |ns| == 1 {
      CutOnly(ns, k);
    } else if k <= |Decimal(ns[0])| {
      CutInFirst(ns, k);
    } else {
      CutAfterFirst(ns, k);
      ReadFieldsCut(ns[1..], k - |Decimal(ns[0])| - 1);
      CutLater(ns, k);
    }
  }

  lemma CutOnly(ns: seq<int>, k: nat)
    requires |ns| == 1 && k <= |Join(ns)|
    ensures CutReads(ns, k)
  {
    ReadIntCut(ns[0], k);
  }

  /** A cut in the first of several fields leaves no comma to go on with. */
  lemma CutInFirst(ns: seq<int>, k: nat)
    requires |ns| > 1 && k <= |Decimal(ns[0])| && k <= |Join(ns)|
    ensures CutReads(ns, k)
  {
    var first := Decimal(ns[0]);
    assert Join(ns)[..k] == first[..k];
    ReadIntCut(ns[0], k);
  }

  lemma CutText(a: string, b: string, c: string, k: nat)
    requires |a| + |b| <= k <= |a| + |b| + |c|
    ensures (a + b + c)[..k] == a + (b + c[..k - |a| - |b|])
  {
  }

  lemma CutAfterFirst(ns: seq<int>, k: nat)
    requires |ns| > 1 && |Decimal(ns[0])| < k <= |Join(ns)|
    ensures var j := k - |Decimal(ns[0])| - 1;
      && j <= |Join(ns[1..])|
      && var more := ReadFields(Join(ns[1..])[..j], |ns| - 1);
         ReadFields(Join(ns)[..k], |ns|) == if more.None? then None else Some([ns[0]] + more.value)
  {
    var first, tail := Decimal(ns[0]), Join(ns[1..]);
    var j := k - |first| - 1;
    assert Join(ns)[..k] == first + ("," + tail[..j]) by { CutText(first, ",", tail, k); }
    ReadIntOf(ns[0], "," + tail[..j]);
    ReadFieldsStep(first + ("," + tail[..j]), ns[0], tail[..j], |ns|);
  }

  lemma CutLater(ns: seq<int>, k: nat)
    requires |ns| > 1 && |Decimal(ns[0])| < k <= |Join(ns)| && k - |Decimal(ns[0])| - 1 <= |Join(ns[1..])|
    requires CutReads(ns[1..], k - |Decimal(ns[0])| - 1)
    ensures CutReads(ns, k)
  {
    CutAfterFirst(ns, k);
    var more := ReadFields(Join(ns[1..])[..k - |Decimal(ns[0])| - 1], |ns| - 1);
    if more.Some? { SameButLast(ns, more.value); }
  }

  // ---- lengths and characters ----

  function Pow10(k: nat): (p: nat)
    ensures p > 0
  {
    if k == 0 then 1 else 10 * Pow10(k - 1)
  }

  lemma {:induction false} DigitsLength(n: nat, k: nat)
    requires k > 0 && n < Pow10(k)
    ensures |Digits(n)| <= k
  {
    if n >= 10 { DigitsLength(n / 10, k - 1); }
  }

  /** The 64-bit range of every field the scheduler writes. */
  predicate Printable(n: int) { -0x8000_0000_0000_0000 <= n < 0x1_0000_0000_0000_0000 }

  lemma DecimalLength(n: int)
    requires Printable(n)
    ensures |Decimal(n)| <= 20
  {
    assert Pow10(5) == 100_000;
    assert Pow10(10) == 10_000_000_000;
    assert Pow10(15) == 1_000_000_000_000_000;
    assert Pow10(19) == 10_000_000_000_000_000_000;
    assert Pow10(20) == 100_000_000_000_000_000_000;
    if n < 0 { DigitsLength(-n, 19); } else { DigitsLength(n, 20); }
  }

  predicate FieldChar(c: char) { IsDigit(c) || c == '-' || c == ',' }

  lemma {:induction false} JoinLength(ns: seq<int>)
    requires forall i | 0 <= i < |ns| :: Printable(ns[i])
    ensures |Join(ns)| <= 21 * |ns|
    ensures forall i | 0 <= i < |Join(ns)| :: FieldChar(Join(ns)[i])
  {
    if ns != [] {
      DecimalLength(ns[0]);
      JoinLength(ns[1..]);
    }
  }
}
