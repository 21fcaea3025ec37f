/** Document number texts: reading a running format, and what each part of it prints. */
module DocTexts {
  import opened DocNumbers

  // ----- reading a format -----

  function Spelled(token: Token): string {
    match token
    case Year4 => "YYYY"
    case Year2 => "YY"
    case Month => "MM"
    case Day => "DD"
    case Hashes(n) => seq(n, _ => '#')
    case Literal(c) => [c]
  }

  function SpelledAll(t: seq<Token>): string {
    if t == [] then "" else Spelled(t[0]) + SpelledAll(t[1..])
  }

  function FirstChar(token: Token): char {
    match token
    case Year4 => 'Y'
    case Year2 => 'Y'
    case Month => 'M'
    case Day => 'D'
    case Hashes(_) => '#'
    case Literal(c) => c
  }

  /** A token that could not have been read any longer, given the one after it. */
  predicate Longest(token: Token, next: Token) {
    match token
    case Year2 => next != Year4 && next != Year2
    case Hashes(_) => !next.Hashes?
    case Literal(c) => c in {'Y', 'M', 'D'} ==> FirstChar(next) != c
    case _ => true
  }

  predicate Plausible(token: Token) {
    (token.Hashes? ==> token.n >= 1) && token != Literal('#')
  }

  /** Read from the left, each token as long as it can be. */
  predicate Greedy(t: seq<Token>) {
    && (forall i :: 0 <= i < |t| ==> Plausible(t[i]))
    && (forall i :: 0 <= i < |t| - 1 ==> Longest(t[i], t[i + 1]))
  }

  lemma TokensStart(format: string)
    requires format != ""
    ensures Tokens(format) != [] && FirstChar(Tokens(format)[0]) == format[0]
    ensures Plausible(Tokens(format)[0])
  {
  }

  lemma {:induction false} TokensSpell(format: string)
    ensures SpelledAll(Tokens(format)) == format
    decreases |format|
  {
    if format != "" {
      var head := Spelled(Tokens(format)[0]);
      assert head <= format && format == head + format[|head|..] by { HeadIsPrefix(format); }
      assert Tokens(format)[1..] == Tokens(format[|head|..]);
      TokensSpell(format[|head|..]);
    }
  }

  lemma HeadIsPrefix(format: string)
    requires format != ""
    ensures var head := Spelled(Tokens(format)[0]);
            head != "" && head <= format && Tokens(format) == [Tokens(format)[0]] + Tokens(format[|head|..])
  {
    if format[0] == '#' && !("YYYY" <= format) {
      assert Tokens(format)[0] == Hashes(HashRun(format));
    }
  }

  lemma {:induction false} TokensGreedy(format: string)
    ensures Greedy(Tokens(format))
    decreases |format|
  {
    if format != "" {
      HeadIsPrefix(format);
      var t, head := Tokens(format), Spelled(Tokens(format)[0]);
      var rest := format[|head|..];
      TokensGreedy(rest);
      TokensStart(format);
      if rest != "" {
        TokensStart(rest);
        HeadLongest(format, rest, Tokens(rest)[0]);
      }
      assert t == [t[0]] + Tokens(rest);
      assert forall i :: 0 < i < |t| ==> t[i] == Tokens(rest)[i - 1];
    }
  }

  lemma HeadLongest(format: string, rest: string, next: Token)
    requires format != "" && rest != "" && rest == format[|Spelled(Tokens(format)[0])|..]
    requires |Spelled(Tokens(format)[0])| <= |format|
    requires next == Tokens(rest)[0]
    ensures Longest(Tokens(format)[0], next)
  {
    TokensStart(rest);
    match Tokens(format)[0]
    case Year2 =>
      assert format[..2] == "YY";
      assert "YY" <= rest ==> "YYYY" <= format;
    case Hashes(n) => assert rest[0] == format[n];
    case Literal(c) =>
      assert rest[0] == format[1] && format[0] == c;
      if c == format[1] { assert format[..2] == [c, c]; }
    case _ =>
  }

  lemma {:induction false} HashRunIs(n: nat, rest: string)
    requires rest != "" ==> rest[0] != '#'
    ensures HashRun(seq(n, _ => '#') + rest) == n
  {
    var s := seq(n, _ => '#') + rest;
    if n > 0 {
      assert s[1..] == seq(n - 1, _ => '#') + rest;
      HashRunIs(n - 1, rest);
    } else {
      assert s == rest;
    }
  }

  lemma SpellStart(t: seq<Token>)
    requires t != [] && Plausible(t[0])
    ensures SpelledAll(t) != "" && SpelledAll(t)[0] == FirstChar(t[0])
  {
  }

  lemma {:induction false} SpelledReads(t: seq<Token>)
    requires Greedy(t)
    ensures Tokens(SpelledAll(t)) == t
  {
    if t != [] {
      var rest := t[1..];
      assert forall i :: 0 <= i < |rest| ==> rest[i] == t[i + 1];
      SpelledReads(rest);
      if rest != [] { SpellStart(rest); }
      ReadsHead(t[0], rest);
    }
  }

  lemma YearAgain(tail: string)
    ensures "YYYY" <= "YY" + tail ==> Tokens(tail) != [] && (Tokens(tail)[0] == Year4 || Tokens(tail)[0] == Year2)
  {
    if "YYYY" <= "YY" + tail {
      assert ("YY" + tail)[2] == tail[0] && ("YY" + tail)[3] == tail[1];
      assert "YY" <= tail;
    }
  }

  lemma ReadsDate(token: Token, tail: string)
    requires token.Year4? || token.Year2? || token.Month? || token.Day?
    requires token.Year2? ==> !("YYYY" <= "YY" + tail)
    ensures Tokens(Spelled(token) + tail) == [token] + Tokens(tail)
  {
    var s := Spelled(token);
    var format := s + tail;
    assert format[|s|..] == tail && s <= format && format[0] == s[0];
  }

  lemma ReadsHashes(n: nat, tail: string)
    requires n >= 1 && (tail != "" ==> tail[0] != '#')
    ensures Tokens(Spelled(Hashes(n)) + tail) == [Hashes(n)] + Tokens(tail)
  {
    HashRunIs(n, tail);
    var format := Spelled(Hashes(n)) + tail;
    assert format[0] == '#' && format[n..] == tail;
  }

  lemma ReadsLiteral(c: char, tail: string)
    requires c != '#' && (tail != "" && c in {'Y', 'M', 'D'} ==> tail[0] != c)
    ensures Tokens([c] + tail) == [Literal(c)] + Tokens(tail)
  {
    var format := [c] + tail;
    assert format[0] == c && format[1..] == tail;
    if tail != "" { assert format[1] == tail[0]; }
  }

  lemma ReadsHead(token: Token, rest: seq<Token>)
    requires Plausible(token) && (rest != [] ==> Longest(token, rest[0])) && Tokens(SpelledAll(rest)) == rest
    requires rest != [] ==> SpelledAll(rest) != "" && SpelledAll(rest)[0] == FirstChar(rest[0])
    ensures Tokens(Spelled(token) + SpelledAll(rest)) == [token] + rest
  {
    var tail := SpelledAll(rest);
    match token
    case Hashes(n) => ReadsHashes(n, tail);
    case Literal(c) => ReadsLiteral(c, tail);
    case Year2 =>
      YearAgain(tail);
      ReadsDate(token, tail);
    case _ => ReadsDate(token, tail);
  }

  /** The tokens of a format are the one way to spell it in tokens as long as they can be. */
  lemma TokensExactly(format: string, t: seq<Token>)
    ensures Tokens(format) == t <==> Greedy(t) && SpelledAll(t) == format
  {
    TokensSpell(format);
    TokensGreedy(format);
    if Greedy(t) { SpelledReads(t); }
  }

  // ----- what is printed -----

  predicate AllDigits(s: string) {
    forall i :: 0 <= i < |s| ==> s[i] in "0123456789"
  }

  lemma {:induction false} PadDigits(n: nat, width: nat)
    ensures AllDigits(Pad(n, width))
    decreases n, width
  {
    assert forall k :: 0 <= k < 10 ==> "0123456789"[k] == Digit(k);
    if !(n < 10 && width <= 1) { PadDigits(n / 10, if width == 0 then 0 else width - 1); }
  }

  /** Years in four or two digits, months and days in two, a run of # as the sequence, the rest as it stands. */
  lemma TokenExactly(d: Date, digits: string, n: nat, c: char)
    requires Valid(d)
    ensures var s := RenderToken(Year4, d, digits); |s| == 4 && AllDigits(s) && Value(s) == d.year
    ensures var s := RenderToken(Year2, d, digits); |s| == 2 && AllDigits(s) && Value(s) == d.year % 100
    ensures var s := RenderToken(Month, d, digits); |s| == 2 && AllDigits(s) && Value(s) == d.month
    ensures var s := RenderToken(Day, d, digits); |s| == 2 && AllDigits(s) && Value(s) == d.day
    ensures RenderToken(Hashes(n), d, digits) == digits && RenderToken(Literal(c), d, digits) == [c]
  {
    assert Power10(4) == 10_000 && Power10(2) == 100 by { assert Power10(1) == 10 && Power10(3) == 1_000; }
    PadLength(d.year, 4);
    PadLength(d.year % 100, 2);
    PadLength(d.month, 2);
    PadLength(d.day, 2);
    PadValue(d.year, 4);
    PadValue(d.year % 100, 2);
    PadValue(d.month, 2);
    PadValue(d.day, 2);
    PadDigits(d.year, 4);
    PadDigits(d.year % 100, 2);
    PadDigits(d.month, 2);
    PadDigits(d.day, 2);
  }

  /** Digits of the same length with the same value are the same text. */
  lemma {:induction false} ValueInjective(a: string, b: string)
    requires AllDigits(a) && AllDigits(b) && |a| == |b| && Value(a) == Value(b)
    ensures a == b
  {
    if a != "" {
      var n := |a| - 1;
      assert forall k :: 0 <= k < 10 ==> DigitValue("0123456789"[k]) == k;
      ValueInjective(a[..n], b[..n]);
      assert a == a[..n] + [a[n]] && b == b[..n] + [b[n]];
    }
  }

  /** The first run of # sets how many digits are printed at least, four when there is none. */
  lemma {:induction false} WidthExactly(t: seq<Token>, i: nat)
    requires i <= |t| && forall j :: 0 <= j < i ==> !t[j].Hashes?
    requires i < |t| ==> t[i].Hashes?
    ensures Width(t) == if i < |t| then t[i].n else 4
  {
    if i > 0 { WidthExactly(t[1..], i - 1); }
  }

  lemma {:induction false} RenderAllSplits(a: seq<Token>, b: seq<Token>, d: Date, digits: string)
    ensures RenderAll(a + b, d, digits) == RenderAll(a, d, digits) + RenderAll(b, d, digits)
  {
    if a == [] {
      assert a + b == b;
    } else {
      assert (a + b)[1..] == a[1..] + b;
      RenderAllSplits(a[1..], b, d, digits);
    }
  }

  /** A counter is shared by dates that agree in the year, and in month and day as far as the format prints them. */
  lemma PeriodExactly(t: seq<Token>, d: Date, d2: Date)
    ensures PeriodOf(t, d) == PeriodOf(t, d2) <==>
            && (Day in t ==> d == d2)
            && (Month in t ==> d.year == d2.year && d.month == d2.month)
            && (Year4 in t || Year2 in t ==> d.year == d2.year)
  {
  }

  lemma ExampleTokens()
    ensures Tokens("YYMM####") == [Year2, Month, Hashes(4)]
  {
    HashRunIs(4, "");
    assert seq(4, _ => '#') + "" == "####";
    assert "YYMM####"[2..] == "MM####" && "MM####"[2..] == "####" && "####"[4..] == "";
    assert Tokens("####") == [Hashes(4)];
    assert Tokens("MM####") == [Month] + [Hashes(4)];
    assert !("YYYY" <= "YYMM####") by { assert "YYMM####"[2] == 'M'; }
  }

  lemma ExampleDigits()
    ensures Pad(26, 2) == "26" && Pad(5, 2) == "05" && Pad(10, 4) == "0010"
  {
    assert Pad(2, 1) == "2" && Pad(0, 1) == "0" && Pad(1, 3) == Pad(0, 2) + "1";
    assert Pad(0, 2) == "00";
  }

  /** The ERP client's own example: sequence 10 of May 2026 in YYMM####. */
  lemma Example()
    ensures Render("NX-PO", Tokens("YYMM####"), Date(2026, 5, 25), 10) == "NX-PO26050010"
  {
    ExampleTokens();
    ExampleDigits();
    var d := Date(2026, 5, 25);
    var t := [Year2, Month, Hashes(4)];
    WidthExactly(t, 2);
    ExampleText(t, d);
    assert "NX-PO" + "26050010" == "NX-PO26050010";
  }

  lemma ExampleText(t: seq<Token>, d: Date)
    requires t == [Year2, Month, Hashes(4)] && d == Date(2026, 5, 25)
    ensures RenderAll(t, d, "0010") == "26050010"
  {
    ExampleDigits();
    assert t == [Year2] + ([Month] + ([Hashes(4)] + []));
    RenderAfter(Hashes(4), [], d, "0010");
    RenderAfter(Month, [Hashes(4)] + [], d, "0010");
    RenderAfter(Year2, [Month] + ([Hashes(4)] + []), d, "0010");
    assert RenderToken(Year2, d, "0010") == "26" && RenderToken(Month, d, "0010") == "05";
    assert "26" + ("05" + ("0010" + "")) == "26050010";
  }
}
