/** Document numbers: rendering, the shared counter, allocation and preview. */
module DocNumbers {
  import opened Wrappers

  // ----- digits -----

  function Digit(n: nat): char
    requires n < 10
  {
    (n + '0' as int) as char
  }

  function DigitValue(c: char): int {
    c as int - '0' as int
  }

  /** The decimal digits of a number, zero-padded to at least `width`. */
  function Pad(n: nat, width: nat): (s: string)
    ensures |s| >= width && |s| >= 1
    decreases n, width
  {
    if n < 10 && width <= 1 then [Digit(n)]
    else Pad(n / 10, if width == 0 then 0 else width - 1) + [Digit(n % 10)]
  }

  function Value(s: string): int {
    if s == "" then 0 else 10 * Value(s[..|s| - 1]) + DigitValue(s[|s| - 1])
  }

  lemma {:induction false} PadValue(n: nat, width: nat)
    ensures Value(Pad(n, width)) == n
    decreases n, width
  {
    if n < 10 && width <= 1 {
      assert Pad(n, width)[..0] == "";
    } else {
      var front := Pad(n / 10, if width == 0 then 0 else width - 1);
      assert Pad(n, width)[..|front|] == front;
      PadValue(n / 10, if width == 0 then 0 else width - 1);
    }
  }

  lemma {:induction false} PadLength(n: nat, width: nat)
    requires width >= 1 && n < Power10(width)
    ensures |Pad(n, width)| == width
    decreases n, width
  {
    if !(n < 10 && width <= 1) {
      assert width > 1;
      assert n / 10 < Power10(width - 1);
      PadLength(n / 10, width - 1);
    }
  }

  function Power10(n: nat): nat {
    if n == 0 then 1 else 10 * Power10(n - 1)
  }

  // ----- formats -----

  /** A running format, split greedily; `Hashes` is a run of # characters. */
  datatype Token = Year4 | Year2 | Month | Day | Hashes(n: nat) | Literal(c: char)

  datatype Date = Date(year: nat, month: nat, day: nat)

  predicate Valid(d: Date) {
    d.year < 10_000 && 1 <= d.month <= 12 && 1 <= d.day <= 31
  }

  function HashRun(s: string): (n: nat)
    ensures n <= |s| && forall i :: 0 <= i < n ==> s[i] == '#'
    ensures n < |s| ==> s[n] != '#'
  {
    if s == "" || s[0] != '#' then 0 else 1 + HashRun(s[1..])
  }

  function Tokens(format: string): seq<Token>
    decreases |format|
  {
    if format == "" then []
    else if "YYYY" <= format then [Year4] + Tokens(format[4..])
    else if "YY" <= format then [Year2] + Tokens(format[2..])
    else if "MM" <= format then [Month] + Tokens(format[2..])
    else if "DD" <= format then [Day] + Tokens(format[2..])
    else if format[0] == '#' then [Hashes(HashRun(format))] + Tokens(format[HashRun(format)..])
    else [Literal(format[0])] + Tokens(format[1..])
  }

  predicate HasYear(t: seq<Token>) { Year4 in t || Year2 in t }
  predicate HasMonth(t: seq<Token>) { Month in t }
  predicate HasDay(t: seq<Token>) { Day in t }
  predicate HasHash(t: seq<Token>) { exists i :: 0 <= i < |t| && t[i].Hashes? }

  /** The period whose counter a number is drawn from: as fine as the finest date token. */
  datatype Period = Daily(year: nat, month: nat, day: nat) | Monthly(year: nat, month: nat) | Yearly(year: nat) | Forever

  function PeriodOf(t: seq<Token>, d: Date): Period {
    if HasDay(t) then Daily(d.year, d.month, d.day)
    else if HasMonth(t) then Monthly(d.year, d.month)
    else if HasYear(t) then Yearly(d.year)
    else Forever
  }

  /** The width of the first # run; every run is filled with the same digits. */
  function Width(t: seq<Token>): nat {
    if t == [] then 4 else if t[0].Hashes? then t[0].n else Width(t[1..])
  }

  function RenderToken(token: Token, d: Date, digits: string): string {
    match token
    case Year4 => Pad(d.year, 4)
    case Year2 => Pad(d.year % 100, 2)
    case Month => Pad(d.month, 2)
    case Day => Pad(d.day, 2)
    case Hashes(_) => digits
    case Literal(c) => [c]
  }

  function RenderAll(t: seq<Token>, d: Date, digits: string): string {
    if t == [] then "" else RenderToken(t[0], d, digits) + RenderAll(t[1..], d, digits)
  }

  function Render(prefix: string, t: seq<Token>, d: Date, n: nat): string {
    prefix + RenderAll(t, d, Pad(n, Width(t)))
  }

  // ----- when two numbers are the same -----

  predicate SameToken(token: Token, d: Date, d2: Date) {
    match token
    case Year4 => d.year == d2.year
    case Year2 => d.year % 100 == d2.year % 100
    case Month => d.month == d2.month
    case Day => d.day == d2.day
    case _ => true
  }

  predicate SameDateText(t: seq<Token>, d: Date, d2: Date) {
    forall i :: 0 <= i < |t| ==> SameToken(t[i], d, d2)
  }

  lemma TokenText(token: Token, d: Date, d2: Date, digits: string, digits2: string)
    requires Valid(d) && Valid(d2)
    ensures |RenderToken(token, d, digits)| - |RenderToken(token, d2, digits2)| == if token.Hashes? then |digits| - |digits2| else 0
    ensures RenderToken(token, d, digits) == RenderToken(token, d2, digits2) <==>
            if token.Hashes? then digits == digits2 else SameToken(token, d, d2)
  {
    assert Power10(4) == 10_000 && Power10(2) == 100 by { assert Power10(1) == 10 && Power10(3) == 1_000; }
    PadLength(d.year, 4);
    PadLength(d2.year, 4);
    PadLength(d.year % 100, 2);
    PadLength(d2.year % 100, 2);
    PadLength(d.month, 2);
    PadLength(d2.month, 2);
    PadLength(d.day, 2);
    PadLength(d2.day, 2);
    PadValue(d.year, 4);
    PadValue(d2.year, 4);
    PadValue(d.year % 100, 2);
    PadValue(d2.year % 100, 2);
    PadValue(d.month, 2);
    PadValue(d2.month, 2);
    PadValue(d.day, 2);
    PadValue(d2.day, 2);
  }

  function HashCount(t: seq<Token>): nat {
    if t == [] then 0 else (if t[0].Hashes? then 1 else 0) + HashCount(t[1..])
  }

  lemma {:induction false} RenderLength(t: seq<Token>, d: Date, d2: Date, digits: string, digits2: string)
    requires Valid(d) && Valid(d2)
    ensures |RenderAll(t, d, digits)| - |RenderAll(t, d2, digits2)| == HashCount(t) * (|digits| - |digits2|)
  {
    if t != [] {
      TokenText(t[0], d, d2, digits, digits2);
      RenderLength(t[1..], d, d2, digits, digits2);
      OneMore(HashCount(t[1..]), |digits| - |digits2|);
    }
  }

  lemma OneMore(n: nat, x: int)
    ensures (1 + n) * x == x + n * x
  {
  }

  lemma {:induction false} SameLengthParts(t: seq<Token>, d: Date, d2: Date, digits: string, digits2: string)
    requires Valid(d) && Valid(d2) && |digits| == |digits2|
    ensures RenderAll(t, d, digits) == RenderAll(t, d2, digits2) <==>
            SameDateText(t, d, d2) && (HashCount(t) > 0 ==> digits == digits2)
  {
    if t != [] {
      TokenText(t[0], d, d2, digits, digits2);
      SameLengthParts(t[1..], d, d2, digits, digits2);
      var a, b := RenderToken(t[0], d, digits), RenderToken(t[0], d2, digits2);
      var r, q := RenderAll(t[1..], d, digits), RenderAll(t[1..], d2, digits2);
      assert a + r == b + q <==> a == b && r == q by {
        if a + r == b + q { assert (a + r)[..|a|] == a && (b + q)[..|a|] == b && (a + r)[|a|..] == r && (b + q)[|a|..] == q; }
      }
      assert SameDateText(t, d, d2) <==> SameToken(t[0], d, d2) && SameDateText(t[1..], d, d2) by {
        if SameToken(t[0], d, d2) && SameDateText(t[1..], d, d2) {
          forall i | 0 <= i < |t| ensures SameToken(t[i], d, d2) { if i > 0 { assert t[1..][i - 1] == t[i]; } }
        }
        if SameDateText(t, d, d2) {
          forall i | 0 <= i < |t| - 1 ensures SameToken(t[1..][i], d, d2) { assert t[1..][i] == t[i + 1]; }
        }
      }
    }
  }

  lemma {:induction false} CountsHashes(t: seq<Token>)
    ensures HashCount(t) > 0 <==> HasHash(t)
  {
    if t != [] {
      CountsHashes(t[1..]);
      if HasHash(t[1..]) {
        var i :| 0 <= i < |t| - 1 && t[1..][i].Hashes?;
        assert t[i + 1].Hashes?;
      }
      if HasHash(t) && !t[0].Hashes? {
        var i :| 0 <= i < |t| && t[i].Hashes?;
        assert t[1..][i - 1].Hashes?;
      }
    }
  }

  lemma {:induction false} NoHashText(t: seq<Token>, d: Date, digits: string, digits2: string)
    requires HashCount(t) == 0
    ensures RenderAll(t, d, digits) == RenderAll(t, d, digits2)
  {
    if t != [] { NoHashText(t[1..], d, digits, digits2); }
  }

  /** Two numbers of one prefix and format are equal exactly when their date texts and, if it is printed, their sequences are. */
  lemma RenderEqualExactly(prefix: string, t: seq<Token>, d: Date, n: nat, d2: Date, n2: nat)
    requires Valid(d) && Valid(d2)
    ensures Render(prefix, t, d, n) == Render(prefix, t, d2, n2) <==> SameDateText(t, d, d2) && (HasHash(t) ==> n == n2)
  {
    var w := Width(t);
    var x, y := Pad(n, w), Pad(n2, w);
    var a, b := RenderAll(t, d, x), RenderAll(t, d2, y);
    assert (prefix + a)[|prefix|..] == a && (prefix + b)[|prefix|..] == b;
    CountsHashes(t);
    if HashCount(t) == 0 {
      NoHashText(t, d2, x, y);
      SameLengthParts(t, d, d2, x, x);
    } else {
      RenderLength(t, d, d2, x, y);
      PadValue(n, w);
      PadValue(n2, w);
      if |x| == |y| { SameLengthParts(t, d, d2, x, y); } else { NonZero(HashCount(t), |x| - |y|); }
    }
  }

  lemma NonZero(a: int, b: int)
    requires a != 0 && b != 0
    ensures a * b != 0
  {
  }

  /** The date tokens of a format name the period its counter is kept by. */
  predicate Determines(t: seq<Token>) {
    (HasDay(t) ==> HasMonth(t)) && (HasDay(t) || HasMonth(t) ==> HasYear(t))
  }

  predicate SameCentury(d: Date, d2: Date) {
    d.year / 100 == d2.year / 100
  }

  lemma DateTextTokens(t: seq<Token>, d: Date, d2: Date)
    requires SameCentury(d, d2)
    ensures SameDateText(t, d, d2) <==>
            (HasYear(t) ==> d.year == d2.year) && (HasMonth(t) ==> d.month == d2.month) && (HasDay(t) ==> d.day == d2.day)
  {
    if SameDateText(t, d, d2) {
      if Year2 in t { var i :| 0 <= i < |t| && t[i] == Year2; assert SameToken(t[i], d, d2); }
      if Year4 in t { var i :| 0 <= i < |t| && t[i] == Year4; assert SameToken(t[i], d, d2); }
      if Month in t { var i :| 0 <= i < |t| && t[i] == Month; assert SameToken(t[i], d, d2); }
      if Day in t { var i :| 0 <= i < |t| && t[i] == Day; assert SameToken(t[i], d, d2); }
    }
  }

  /**
   * Counters start again in every period, so numbers of different periods stay apart exactly when
   * the format prints what its period depends on. "MM####" does not: it repeats every year.
   */
  lemma PeriodsApartExactly(prefix: string, t: seq<Token>)
    ensures Determines(t) <==>
            forall d, n: nat, d2, n2: nat :: Valid(d) && Valid(d2) && SameCentury(d, d2) && PeriodOf(t, d) != PeriodOf(t, d2) ==>
              Render(prefix, t, d, n) != Render(prefix, t, d2, n2)
  {
    if Determines(t) {
      forall d, n: nat, d2, n2: nat | Valid(d) && Valid(d2) && SameCentury(d, d2) && PeriodOf(t, d) != PeriodOf(t, d2)
        ensures Render(prefix, t, d, n) != Render(prefix, t, d2, n2)
      {
        RenderEqualExactly(prefix, t, d, n, d2, n2);
        DateTextTokens(t, d, d2);
      }
    } else {
      var d, d2 := Colliding(prefix, t);
      assert Render(prefix, t, d, 1) == Render(prefix, t, d2, 1);
    }
  }

  /** Two dates of different periods that a format prints alike. */
  lemma Colliding(prefix: string, t: seq<Token>) returns (d: Date, d2: Date)
    requires !Determines(t)
    ensures Valid(d) && Valid(d2) && SameCentury(d, d2) && PeriodOf(t, d) != PeriodOf(t, d2)
    ensures Render(prefix, t, d, 1) == Render(prefix, t, d2, 1)
  {
    d := Date(2026, 5, 7);
    d2 := if HasYear(t) then Date(2026, 6, 7) else Date(2027, 5, 7);
    RenderEqualExactly(prefix, t, d, 1, d2, 1);
    DateTextTokens(t, d, d2);
  }

  // ----- the shared counter -----

  type Counters = map<(string, Period), nat>

  function Last(c: Counters, prefix: string, period: Period): nat {
    if (prefix, period) in c then c[(prefix, period)] else 0
  }

  /** One upsert: at least the minimum, and past the last one used once there is one. */
  function Reserved(c: Counters, prefix: string, period: Period, min: int): nat {
    var floor := if min < 1 then 1 else min;
    if (prefix, period) in c && c[(prefix, period)] + 1 > floor then c[(prefix, period)] + 1 else floor
  }

  /** A reservation of some worker, in the order the database served them. */
  datatype Issue = Issue(prefix: string, t: seq<Token>, d: Date, n: nat)

  datatype Request = Request(prefix: string, t: seq<Token>, d: Date, min: int)

  datatype State = State(counters: Counters, issued: seq<Issue>)

  function Serve(s: State, r: Request): State {
    var period := PeriodOf(r.t, r.d);
    var n := Reserved(s.counters, r.prefix, period, r.min);
    State(s.counters[(r.prefix, period) := n], s.issued + [Issue(r.prefix, r.t, r.d, n)])
  }

  function ServeAll(s: State, requests: seq<Request>): State
    decreases |requests|
  {
    if requests == [] then s else ServeAll(Serve(s, requests[0]), requests[1..])
  }

  predicate SameCounter(a: Issue, b: Issue) {
    a.prefix == b.prefix && PeriodOf(a.t, a.d) == PeriodOf(b.t, b.d)
  }

  predicate Increasing(s: State) {
    && (forall i :: 0 <= i < |s.issued| ==>
          1 <= s.issued[i].n <= Last(s.counters, s.issued[i].prefix, PeriodOf(s.issued[i].t, s.issued[i].d)))
    && (forall i, j :: 0 <= i < j < |s.issued| && SameCounter(s.issued[i], s.issued[j]) ==> s.issued[i].n < s.issued[j].n)
  }

  lemma ServeKeeps(s: State, r: Request)
    requires Increasing(s)
    ensures Increasing(Serve(s, r))
  {
    var s2, period := Serve(s, r), PeriodOf(r.t, r.d);
    forall i | 0 <= i < |s2.issued|
      ensures 1 <= s2.issued[i].n <= Last(s2.counters, s2.issued[i].prefix, PeriodOf(s2.issued[i].t, s2.issued[i].d))
    {
      if i < |s.issued| { assert s2.issued[i] == s.issued[i]; }
    }
  }

  lemma {:induction false} AllIncreasing(s: State, requests: seq<Request>)
    requires Increasing(s)
    ensures Increasing(ServeAll(s, requests))
    decreases |requests|
  {
    if requests != [] {
      ServeKeeps(s, requests[0]);
      AllIncreasing(Serve(s, requests[0]), requests[1..]);
    }
  }

  /** What a run of reservations issues, from any counters and in the order the database served them. */
  function Served(counters: Counters, requests: seq<Request>): seq<Issue> {
    ServeAll(State(counters, []), requests).issued
  }

  predicate Of(issue: Issue, prefix: string, t: seq<Token>) {
    issue.prefix == prefix && issue.t == t && Valid(issue.d)
  }

  function NumberOf(issue: Issue): string {
    Render(issue.prefix, issue.t, issue.d, issue.n)
  }

  /** In every run, whatever else it reserves, the numbers of one prefix and format within a century are all different. */
  ghost predicate NeverRepeats(prefix: string, t: seq<Token>) {
    forall counters, requests, i: nat, j: nat :: i < j < |Served(counters, requests)| ==>
      var a, b := Served(counters, requests)[i], Served(counters, requests)[j];
      Of(a, prefix, t) && Of(b, prefix, t) && SameCentury(a.d, b.d) ==> NumberOf(a) != NumberOf(b)
  }

  lemma NeverTwice(counters: Counters, requests: seq<Request>, prefix: string, t: seq<Token>, i: nat, j: nat)
    requires HasHash(t) && Determines(t) && i < j < |Served(counters, requests)|
    requires Of(Served(counters, requests)[i], prefix, t) && Of(Served(counters, requests)[j], prefix, t)
    requires SameCentury(Served(counters, requests)[i].d, Served(counters, requests)[j].d)
    ensures NumberOf(Served(counters, requests)[i]) != NumberOf(Served(counters, requests)[j])
  {
    AllIncreasing(State(counters, []), requests);
    var a, b := Served(counters, requests)[i], Served(counters, requests)[j];
    RenderEqualExactly(prefix, t, a.d, a.n, b.d, b.n);
    if PeriodOf(t, a.d) != PeriodOf(t, b.d) { DateTextTokens(t, a.d, b.d); }
  }

  lemma ServedTwo(prefix: string, t: seq<Token>, d: Date, d2: Date)
    ensures var issued := Served(map[], [Request(prefix, t, d, 1), Request(prefix, t, d2, 1)]);
            |issued| == 2 && issued[0] == Issue(prefix, t, d, 1)
            && issued[1] == Issue(prefix, t, d2, if PeriodOf(t, d) == PeriodOf(t, d2) then 2 else 1)
  {
    var first, second := Request(prefix, t, d, 1), Request(prefix, t, d2, 1);
    var s1 := Serve(State(map[], []), first);
    assert [first, second][1..] == [second] && [second][1..] == [];
    assert ServeAll(s1, [second]) == Serve(s1, second);
  }

  /**
   * No run of reservations repeats a number of a format if and only if the format prints the sequence
   * and everything its counter's period depends on.
   */
  lemma NeverRepeatsExactly(prefix: string, t: seq<Token>)
    ensures NeverRepeats(prefix, t) <==> HasHash(t) && Determines(t)
  {
    if HasHash(t) && Determines(t) {
      forall counters, requests, i: nat, j: nat | i < j < |Served(counters, requests)|
        ensures var a, b := Served(counters, requests)[i], Served(counters, requests)[j];
                Of(a, prefix, t) && Of(b, prefix, t) && SameCentury(a.d, b.d) ==> NumberOf(a) != NumberOf(b)
      {
        var a, b := Served(counters, requests)[i], Served(counters, requests)[j];
        if Of(a, prefix, t) && Of(b, prefix, t) && SameCentury(a.d, b.d) { NeverTwice(counters, requests, prefix, t, i, j); }
      }
    } else {
      var d, d2 := Date(2026, 5, 7), Date(2026, 5, 7);
      if Determines(t) {
        RenderEqualExactly(prefix, t, d, 1, d2, 2);
      } else {
        d, d2 := Colliding(prefix, t);
      }
      ServedTwo(prefix, t, d, d2);
      var requests := [Request(prefix, t, d, 1), Request(prefix, t, d2, 1)];
      assert NumberOf(Served(map[], requests)[0]) == NumberOf(Served(map[], requests)[1]);
    }
  }

  lemma PadsMeet()
    ensures Pad(10_001, 4) == ['1'] + Pad(1, 4)
  {
    assert Pad(1, 4) == "0001" by { assert Pad(0, 1) == "0" && Pad(0, 2) == "00" && Pad(0, 3) == "000"; }
    assert Pad(10_001, 4) == "10001" by { assert Pad(10, 1) == "10" && Pad(100, 2) == "100" && Pad(1_000, 3) == "1000"; }
  }

  lemma RenderAfter(head: Token, t: seq<Token>, d: Date, digits: string)
    ensures RenderAll([head] + t, d, digits) == RenderToken(head, d, digits) + RenderAll(t, d, digits)
    ensures RenderAll([Hashes(4)], d, digits) == digits
  {
    assert ([head] + t)[1..] == t && [Hashes(4)][1..] == [];
  }

  /** Two formats of one prefix can meet, even while they share a counter: YYMM#### at 10001 is YYMM1#### at 1. */
  lemma FormatsMeet(prefix: string, d: Date)
    ensures var t, u := [Year2, Month, Hashes(4)], [Year2, Month, Literal('1'), Hashes(4)];
            PeriodOf(t, d) == PeriodOf(u, d) && Render(prefix, t, d, 10_001) == Render(prefix, u, d, 1)
  {
    var t, u := [Year2, Month, Hashes(4)], [Year2, Month, Literal('1'), Hashes(4)];
    var x, y := Pad(10_001, 4), Pad(1, 4);
    PadsMeet();
    RenderAfter(Literal('1'), [Hashes(4)], d, x);
    RenderAfter(Literal('1'), [Hashes(4)], d, y);
    RenderAfter(Month, [Hashes(4)], d, x);
    RenderAfter(Month, [Literal('1')] + [Hashes(4)], d, y);
    RenderAfter(Year2, [Month] + [Hashes(4)], d, x);
    RenderAfter(Year2, [Month] + ([Literal('1')] + [Hashes(4)]), d, y);
    assert t == [Year2] + ([Month] + [Hashes(4)]) && u == [Year2] + ([Month] + ([Literal('1')] + [Hashes(4)]));
    assert Year2 in t && Year2 in u && Month in t && Month in u && Day !in t && Day !in u;
    assert Width(t) == 4 && Width(u) == 4 by {
      assert t[1..][1..] == [Hashes(4)] && u[1..][1..][1..] == [Hashes(4)];
    }
  }

  // ----- allocation and preview -----

  const TRIES := 100

  /** The counter table with the list of what was ever reserved from it. */
  class DocCounterRepo {
    var counters: Counters
    var issued: seq<Issue>

    constructor (initial: Counters)
      ensures Current() == State(initial, [])
    {
      counters, issued := initial, [];
    }

    function Current(): State
      reads this
    {
      State(counters, issued)
    }

    method NextSeqAtLeast(r: Request) returns (n: nat)
      modifies this
      ensures Current() == Serve(old(Current()), r)
      ensures n == Reserved(old(counters), r.prefix, PeriodOf(r.t, r.d), r.min)
      ensures var key := (r.prefix, PeriodOf(r.t, r.d));
              && counters == old(counters)[key := n] && issued == old(issued) + [Issue(r.prefix, r.t, r.d, n)]
              && n >= 1 && n >= r.min && (key in old(counters) ==> n > old(counters)[key])
              && (n == 1 || n == r.min || (key in old(counters) && n == old(counters)[key] + 1))
    {
      var period := PeriodOf(r.t, r.d);
      n := if r.min < 1 then 1 else r.min;
      if (r.prefix, period) in counters && counters[(r.prefix, period)] + 1 > n { n := counters[(r.prefix, period)] + 1; }
      counters, issued := counters[(r.prefix, period) := n], issued + [Issue(r.prefix, r.t, r.d, n)];
    }

    /** Other workers' reservations, between two of ours. */
    method ServeOthers(requests: seq<Request>)
      modifies this
      ensures Current() == ServeAll(old(Current()), requests)
    {
      for i := 0 to |requests|
        invariant ServeAll(Current(), requests[i..]) == ServeAll(old(Current()), requests)
      {
        assert requests[i..][1..] == requests[i + 1..];
        var _ := NextSeqAtLeast(requests[i]);
      }
    }
  }

  /** Held by another bill: the numbers `taken` when they are looked up. */
  predicate Free(prefix: string, t: seq<Token>, d: Date, n: nat, taken: set<string>) {
    Render(prefix, t, d, n) !in taken
  }

  /** The first sequence from `from` on whose number is free, among `tries`. */
  function FirstFree(prefix: string, t: seq<Token>, d: Date, from: nat, tries: nat, taken: set<string>): (r: Option<nat>)
    ensures r.Some? ==> from <= r.value < from + tries && Free(prefix, t, d, r.value, taken)
    ensures r.Some? ==> forall n :: from <= n < r.value ==> !Free(prefix, t, d, n, taken)
    ensures r.None? ==> forall n :: from <= n < from + tries ==> !Free(prefix, t, d, n, taken)
    decreases tries, from
  {
    if tries == 0 then None
    else if Free(prefix, t, d, from, taken) then Some(from)
    else FirstFree(prefix, t, d, from + 1, tries - 1, taken)
  }

  lemma {:induction false} FirstFreeIs(prefix: string, t: seq<Token>, d: Date, from: nat, k: nat, tries: nat, taken: set<string>)
    requires k <= tries && forall n :: from <= n < from + k ==> !Free(prefix, t, d, n, taken)
    requires k < tries ==> Free(prefix, t, d, from + k, taken)
    ensures FirstFree(prefix, t, d, from, tries, taken) == if k < tries then Some(from + k) else None
    decreases k
  {
    if k > 0 { FirstFreeIs(prefix, t, d, from + 1, k - 1, tries - 1, taken); }
  }

  lemma {:induction false} ServeAllConcat(s: State, a: seq<Request>, b: seq<Request>)
    ensures ServeAll(s, a + b) == ServeAll(ServeAll(s, a), b)
    decreases |a|
  {
    if a == [] {
      assert a + b == b;
    } else {
      assert (a + b)[1..] == a[1..] + b;
      ServeAllConcat(Serve(s, a[0]), a[1..], b);
    }
  }

  lemma {:induction false} LastGrows(s: State, requests: seq<Request>, prefix: string, period: Period)
    ensures Last(s.counters, prefix, period) <= Last(ServeAll(s, requests).counters, prefix, period)
    decreases |requests|
  {
    if requests != [] { LastGrows(Serve(s, requests[0]), requests[1..], prefix, period); }
  }

  /** The sequences an allocation reserved: each above the one before, each but the last found taken. */
  predicate Tried(own: seq<nat>, least: nat, erpNext: int, isTaken: (nat, nat) -> bool) {
    && (forall i :: 0 <= i < |own| ==> own[i] > least && own[i] >= erpNext)
    && (forall i, j :: 0 <= i < j < |own| ==> own[i] < own[j])
    && (forall i :: 0 <= i < |own| - 1 ==> isTaken(i, own[i]))
  }

  /** One try: other workers' reservations, then our own. */
  method TryOnce(repo: DocCounterRepo, request: Request, others: seq<Request>) returns (n: nat)
    modifies repo
    ensures repo.Current() == ServeAll(old(repo.Current()), others + [request])
    ensures n > Last(old(repo.counters), request.prefix, PeriodOf(request.t, request.d)) && n >= request.min
    ensures Last(repo.counters, request.prefix, PeriodOf(request.t, request.d)) == n
    ensures repo.issued != [] && repo.issued[|repo.issued| - 1] == Issue(request.prefix, request.t, request.d, n)
    ensures others == [] ==> n == Reserved(old(repo.counters), request.prefix, PeriodOf(request.t, request.d), request.min)
  {
    ghost var before := repo.Current();
    repo.ServeOthers(others);
    LastGrows(before, others, request.prefix, PeriodOf(request.t, request.d));
    ServeAllConcat(before, others, [request]);
    assert [request][1..] == [];
    n := repo.NextSeqAtLeast(request);
  }

  function LastOf(s: State, request: Request): nat {
    Last(s.counters, request.prefix, PeriodOf(request.t, request.d))
  }

  /** Where a search stands that has reserved `own` in the run `served` from `before` to `now`. */
  predicate Searched(before: State, now: State, served: seq<Request>, own: seq<nat>, request: Request, isTaken: (nat, nat) -> bool) {
    && now == ServeAll(before, served) && Tried(own, LastOf(before, request), request.min, isTaken)
    && (own == [] ==> now == before)
    && (own != [] ==>
          LastOf(before, request) < own[|own| - 1] == LastOf(now, request) && now.issued != []
          && now.issued[|now.issued| - 1] == Issue(request.prefix, request.t, request.d, own[|own| - 1]))
  }

  lemma SearchedStep(before: State, now: State, served: seq<Request>, own: seq<nat>, request: Request, isTaken: (nat, nat) -> bool,
                     more: seq<Request>, next: State, n: nat)
    requires Searched(before, now, served, own, request, isTaken) && (own != [] ==> isTaken(|own| - 1, own[|own| - 1]))
    requires next == ServeAll(now, more) && n > LastOf(now, request) && n >= request.min && LastOf(next, request) == n
    requires next.issued != [] && next.issued[|next.issued| - 1] == Issue(request.prefix, request.t, request.d, n)
    ensures Searched(before, next, served + more, own + [n], request, isTaken)
  {
    ServeAllConcat(before, served, more);
  }

  lemma QuietStep(before: State, now: State, served: seq<Request>, own: seq<nat>, request: Request, isTaken: (nat, nat) -> bool, n: nat)
    requires Searched(before, now, served, own, request, isTaken)
    requires n == Reserved(now.counters, request.prefix, PeriodOf(request.t, request.d), request.min)
    requires Quiet(own, Reserved(before.counters, request.prefix, PeriodOf(request.t, request.d), request.min))
    ensures Quiet(own + [n], Reserved(before.counters, request.prefix, PeriodOf(request.t, request.d), request.min))
  {
  }

  /** At most 100 tries, until a sequence is not taken. */
  method Search(repo: DocCounterRepo, request: Request, isTaken: (nat, nat) -> bool, others: nat -> seq<Request>)
    returns (own: seq<nat>, served: seq<Request>)
    modifies repo
    ensures 1 <= |own| <= TRIES && Searched(old(repo.Current()), repo.Current(), served, own, request, isTaken)
    ensures isTaken(|own| - 1, own[|own| - 1]) ==> |own| == TRIES
    ensures (forall i :: others(i) == []) ==>
              Quiet(own, Reserved(old(repo.counters), request.prefix, PeriodOf(request.t, request.d), request.min))
  {
    ghost var before := repo.Current();
    own, served := [], [];
    for i := 0 to TRIES
      invariant |own| == i && Searched(before, repo.Current(), served, own, request, isTaken)
      invariant i > 0 ==> isTaken(i - 1, own[i - 1])
      invariant (forall k :: others(k) == []) ==>
                  Quiet(own, Reserved(before.counters, request.prefix, PeriodOf(request.t, request.d), request.min))
    {
      ghost var now := repo.Current();
      var n := TryOnce(repo, request, others(i));
      SearchedStep(before, now, served, own, request, isTaken, others(i) + [request], repo.Current(), n);
      if forall k :: others(k) == [] { QuietStep(before, now, served, own, request, isTaken, n); }
      own, served := own + [n], served + (others(i) + [request]);
      if !isTaken(i, n) { return; }
    }
  }

  function TakenAt(prefix: string, t: seq<Token>, d: Date, taken: nat -> set<string>): (nat, nat) -> bool {
    (i: nat, n: nat) => !Free(prefix, t, d, n, taken(i))
  }

  /**
   * Reserves from the ERP's next sequence on until a number is free; gives up after 100 reservations.
   * `others(i)` is what other workers reserve before try `i`, `taken(i)` what other bills hold when it is looked up.
   * `served` lists all reservations made meanwhile, so the number given is one of the issues of that run.
   */
  method AllocateFreshDocNo(repo: DocCounterRepo, prefix: string, t: seq<Token>, d: Date, erpNext: int,
                            taken: nat -> set<string>, others: nat -> seq<Request>)
    returns (r: Option<nat>, own: seq<nat>, served: seq<Request>)
    modifies repo
    ensures repo.Current() == ServeAll(old(repo.Current()), served)
    ensures 1 <= |own| <= 100
    ensures Tried(own, Last(old(repo.counters), prefix, PeriodOf(t, d)), erpNext, TakenAt(prefix, t, d, taken))
    ensures r == if Free(prefix, t, d, own[|own| - 1], taken(|own| - 1)) then Some(own[|own| - 1]) else None
    ensures r.None? ==> |own| == 100
    ensures repo.issued != [] && repo.issued[|repo.issued| - 1] == Issue(prefix, t, d, own[|own| - 1])
    ensures Last(repo.counters, prefix, PeriodOf(t, d)) == own[|own| - 1]
    ensures (forall i :: others(i) == []) ==> Quiet(own, Reserved(old(repo.counters), prefix, PeriodOf(t, d), erpNext))
  {
    var isTaken := TakenAt(prefix, t, d, taken);
    own, served := Search(repo, Request(prefix, t, d, erpNext), isTaken, others);
    r := if isTaken(|own| - 1, own[|own| - 1]) then None else Some(own[|own| - 1]);
  }

  /** The sequences tried follow one another without a gap. */
  predicate Quiet(own: seq<nat>, from: nat) {
    forall i :: 0 <= i < |own| ==> own[i] == from + i
  }

  /** With no other reservation between its tries and no change of the taken numbers, an allocation gives the first free sequence. */
  lemma QuietAllocation(own: seq<nat>, prefix: string, t: seq<Token>, d: Date, least: nat, erpNext: int, from: nat, taken: set<string>)
    requires 1 <= |own| <= TRIES && Quiet(own, from)
    requires Tried(own, least, erpNext, TakenAt(prefix, t, d, _ => taken))
    requires Free(prefix, t, d, own[|own| - 1], taken) || |own| == TRIES
    ensures FirstFree(prefix, t, d, from, TRIES, taken) ==
            if Free(prefix, t, d, own[|own| - 1], taken) then Some(own[|own| - 1]) else None
  {
    var k := if Free(prefix, t, d, own[|own| - 1], taken) then |own| - 1 else TRIES;
    forall n | from <= n < from + k ensures !Free(prefix, t, d, n, taken) { assert own[n - from] == n; }
    FirstFreeIs(prefix, t, d, from, k, TRIES, taken);
  }

  /** The preview walks from the ERP's next sequence and reserves nothing. */
  method PreviewFreshDocNo(prefix: string, t: seq<Token>, d: Date, erpNext: nat, taken: set<string>) returns (r: Option<nat>)
    ensures r == FirstFree(prefix, t, d, erpNext, 100, taken)
  {
    for i := 0 to TRIES
      invariant FirstFree(prefix, t, d, erpNext, TRIES, taken) == FirstFree(prefix, t, d, erpNext + i, TRIES - i, taken)
    {
      if Render(prefix, t, d, erpNext + i) !in taken { return Some(erpNext + i); }
    }
    return None;
  }

  /**
   * A preview is never above what a following allocation gives, and equal to it when the local
   * counter is below the ERP's next sequence.
   */
  lemma PreviewBelowAllocation(c: Counters, prefix: string, t: seq<Token>, d: Date, erpNext: nat, taken: set<string>)
    requires erpNext >= 1
    ensures var preview := FirstFree(prefix, t, d, erpNext, TRIES, taken);
            var given := FirstFree(prefix, t, d, Reserved(c, prefix, PeriodOf(t, d), erpNext), TRIES, taken);
            && (preview.Some? && given.Some? ==> preview.value <= given.value)
            && (Last(c, prefix, PeriodOf(t, d)) < erpNext ==> preview == given)
  {
    var preview := FirstFree(prefix, t, d, erpNext, TRIES, taken);
    var given := FirstFree(prefix, t, d, Reserved(c, prefix, PeriodOf(t, d), erpNext), TRIES, taken);
    if given.Some? { assert Free(prefix, t, d, given.value, taken); }
  }
}
