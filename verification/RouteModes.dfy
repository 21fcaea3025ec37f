/** The document-profile modes of the five routes, as one configuration text. */
module RouteModes {
  import opened Wrappers
  import opened Permutations
  import Text

  datatype Route = SaleInvoice | SaleOrder | SaleOrderCancel | SaleInvoiceCancel | CreditNote

  datatype Mode = Off | Shadow | Active

  const ROUTES := [SaleInvoice, SaleOrder, SaleOrderCancel, SaleInvoiceCancel, CreditNote]
  const MODES := [Off, Shadow, Active]

  function RouteName(r: Route): string {
    match r
    case SaleInvoice => "saleinvoice"
    case SaleOrder => "saleorder"
    case SaleOrderCancel => "saleordercancel"
    case SaleInvoiceCancel => "saleinvoicecancel"
    case CreditNote => "creditnote"
  }

  function ModeName(m: Mode): string {
    match m
    case Off => "off"
    case Shadow => "shadow"
    case Active => "active"
  }

  datatype Error = EmptyEntry | NotRouteMode | UnknownRoute | DuplicateRoute | UnknownMode

  function Plain(text: string): string {
    Text.Lower(Text.Trim(text))
  }

  function RouteOf(text: string, among: seq<Route>): (r: Option<Route>)
    ensures r.Some? ==> RouteName(r.value) == text
  {
    if among == [] then None else if RouteName(among[0]) == text then Some(among[0]) else RouteOf(text, among[1..])
  }

  function ModeOf(text: string, among: seq<Mode>): (m: Option<Mode>)
    ensures m.Some? ==> ModeName(m.value) == text
  {
    if among == [] then None else if ModeName(among[0]) == text then Some(among[0]) else ModeOf(text, among[1..])
  }

  /** Modes are compared trimmed and in lower case. */
  function ParseMode(raw: string): Option<Mode> {
    ModeOf(Plain(raw), MODES)
  }

  type Modes = map<Route, Mode>

  /** What one entry says by itself. */
  datatype Reading = Setting(route: Route, mode: Mode) | BadMode(route: Route) | Bad(error: Error)

  function Read(entry: string): Reading {
    var text := Text.Trim(entry);
    var parts := Text.Split(text, ':');
    if text == "" then Bad(EmptyEntry)
    else if |parts| != 2 then Bad(NotRouteMode)
    else
      var route, mode := RouteOf(Plain(parts[0]), ROUTES), ParseMode(parts[1]);
      if route.None? then Bad(UnknownRoute) else if mode.None? then BadMode(route.value) else Setting(route.value, mode.value)
  }

  function ReadAll(entries: seq<string>): (r: seq<Reading>)
    ensures |r| == |entries|
  {
    seq(|entries|, i requires 0 <= i < |entries| => Read(entries[i]))
  }

  /** One entry on top of those before it; a route met before is refused before its mode is looked at. */
  function Take(m: Modes, e: Reading): Result<Modes, Error> {
    match e
    case Bad(error) => Err(error)
    case BadMode(r) => Err(if r in m then DuplicateRoute else UnknownMode)
    case Setting(r, mode) => if r in m then Err(DuplicateRoute) else Ok(m[r := mode])
  }

  /** What the entries say explicitly. */
  function Explicit(e: seq<Reading>): Result<Modes, Error> {
    if e == [] then Ok(map[])
    else
      var front := Explicit(e[..|e| - 1]);
      if front.Err? then front else Take(front.value, e[|e| - 1])
  }

  /** Only the sale invoice keeps the older single setting; every other route starts off. */
  function Defaults(legacy: Mode): Modes {
    map[SaleInvoice := legacy, SaleOrder := Off, SaleOrderCancel := Off, SaleInvoiceCancel := Off, CreditNote := Off]
  }

  function Entries(raw: string): seq<string> {
    if Text.Trim(raw) == "" then [] else Text.Split(Text.Trim(raw), ',')
  }

  function OnDefaults(legacy: Option<Mode>, explicit: Result<Modes, Error>): Result<Modes, Error> {
    if legacy.None? then Err(UnknownMode)
    else if explicit.Err? then Err(explicit.error)
    else Ok(Defaults(legacy.value) + explicit.value)
  }

  function Parsed(raw: string, legacy: string): Result<Modes, Error> {
    OnDefaults(ParseMode(legacy), Explicit(ReadAll(Entries(raw))))
  }

  lemma {:induction false} FirstErrorStops(e: seq<Reading>, n: nat)
    requires n <= |e| && Explicit(e[..n]).Err?
    ensures Explicit(e) == Explicit(e[..n])
    decreases |e| - n
  {
    if n == |e| {
      assert e[..n] == e;
    } else {
      assert e[..n + 1][..n] == e[..n];
      FirstErrorStops(e, n + 1);
    }
  }

  lemma ExplicitStep(e: seq<Reading>, i: nat, m: Modes)
    requires i < |e| && Explicit(e[..i]) == Ok(m)
    ensures Explicit(e[..i + 1]) == Take(m, e[i])
  {
    assert e[..i + 1][..i] == e[..i];
  }

  /** The entries one after the other, with the routes met so far. */
  method ReadEntries(entries: seq<string>, legacy: Mode) returns (modes: Result<Modes, Error>)
    ensures modes == OnDefaults(Some(legacy), Explicit(ReadAll(entries)))
  {
    var found := Defaults(legacy);
    var seen: set<Route> := {};
    ghost var explicit: Modes := map[];
    ghost var e := ReadAll(entries);
    assert Defaults(legacy) + map[] == Defaults(legacy);
    for i := 0 to |entries|
      invariant Explicit(e[..i]) == Ok(explicit) && seen == explicit.Keys
      invariant found == Defaults(legacy) + explicit
    {
      ExplicitStep(e, i, explicit);
      var next := Check(entries[i], seen, explicit, e[i]);
      if next.Err? {
        FirstErrorStops(e, i + 1);
        return Err(next.error);
      }
      Overlay(Defaults(legacy), explicit, next.value.0, next.value.1);
      seen := seen + {next.value.0};
      found := found[next.value.0 := next.value.1];
      explicit := explicit[next.value.0 := next.value.1];
    }
    assert e[..|entries|] == e;
    return Ok(found);
  }

  method ParseRouteModes(raw: string, legacy: string) returns (modes: Result<Modes, Error>)
    ensures modes == Parsed(raw, legacy)
  {
    var legacyMode := ParseMode(legacy);
    if legacyMode.None? { return Err(UnknownMode); }
    if Text.Trim(raw) == "" {
      assert Defaults(legacyMode.value) + map[] == Defaults(legacyMode.value);
      return Ok(Defaults(legacyMode.value));
    }
    modes := ReadEntries(Text.Split(Text.Trim(raw), ','), legacyMode.value);
  }

  lemma Overlay(base: Modes, m: Modes, r: Route, mode: Mode)
    ensures base + m[r := mode] == (base + m)[r := mode]
  {
  }

  method Check(entry: string, seen: set<Route>, ghost m: Modes, ghost reading: Reading)
    returns (next: Result<(Route, Mode), Error>)
    requires seen == m.Keys && reading == Read(entry)
    ensures next.Err? ==> Take(m, reading) == Err(next.error)
    ensures next.Ok? ==> Take(m, reading) == Ok(m[next.value.0 := next.value.1])
  {
    var text := Text.Trim(entry);
    if text == "" { return Err(EmptyEntry); }
    var parts := Text.Split(text, ':');
    if |parts| != 2 { return Err(NotRouteMode); }
    var route := RouteOf(Plain(parts[0]), ROUTES);
    if route.None? { return Err(UnknownRoute); }
    if route.value in seen { return Err(DuplicateRoute); }
    var mode := ParseMode(parts[1]);
    if mode.None? { return Err(UnknownMode); }
    return Ok((route.value, mode.value));
  }

  // ----- what the entries have to be -----

  function Count(e: seq<Reading>, r: Route): nat {
    if e == [] then 0
    else Count(e[..|e| - 1], r) + (if e[|e| - 1].Setting? && e[|e| - 1].route == r then 1 else 0)
  }

  lemma {:induction false} CountPositive(e: seq<Reading>, r: Route)
    ensures Count(e, r) > 0 <==> exists i :: 0 <= i < |e| && e[i].Setting? && e[i].route == r
  {
    if e != [] {
      var n := |e| - 1;
      CountPositive(e[..n], r);
      if Count(e[..n], r) > 0 {
        var i :| 0 <= i < n && e[..n][i].Setting? && e[..n][i].route == r;
        assert e[i].route == r;
      }
      if i :| 0 <= i < |e| && e[i].Setting? && e[i].route == r {
        if i < n { assert e[..n][i].route == r; }
      }
    }
  }

  predicate Accepted(e: seq<Reading>) {
    && (forall i :: 0 <= i < |e| ==> e[i].Setting?)
    && (forall r :: Count(e, r) <= 1)
  }

  predicate Says(e: seq<Reading>, m: Modes) {
    && (forall r :: r in m <==> Count(e, r) > 0)
    && (forall i :: 0 <= i < |e| && e[i].Setting? && e[i].route in m ==> e[i].mode == m[e[i].route])
  }

  lemma AcceptedSnoc(e: seq<Reading>)
    requires e != []
    ensures var n := |e| - 1;
            Accepted(e) <==> Accepted(e[..n]) && e[n].Setting? && Count(e[..n], e[n].route) == 0
  {
    var n := |e| - 1;
    var front := e[..n];
    if Accepted(e) {
      forall r ensures Count(front, r) <= 1 { assert Count(e, r) <= 1; }
      assert Count(e, e[n].route) <= 1;
    }
    if Accepted(front) && e[n].Setting? && Count(front, e[n].route) == 0 {
      forall i | 0 <= i < |e| ensures e[i].Setting? { if i < n { assert front[i] == e[i]; } }
      forall r ensures Count(e, r) <= 1 { assert Count(front, r) <= 1; }
    }
  }

  lemma SaysSnoc(e: seq<Reading>, m: Modes)
    requires e != [] && Says(e[..|e| - 1], m) && e[|e| - 1].Setting? && Count(e[..|e| - 1], e[|e| - 1].route) == 0
    ensures Says(e, m[e[|e| - 1].route := e[|e| - 1].mode])
  {
    var n := |e| - 1;
    CountPositive(e[..n], e[n].route);
    forall i | 0 <= i < n ensures e[..n][i] == e[i] {}
  }

  /**
   * The entries are accepted exactly when each is a known route with a known mode and no route comes
   * twice; then each route has the mode of its entry.
   */
  lemma {:induction false} ExplicitExactly(e: seq<Reading>)
    ensures Explicit(e).Ok? <==> Accepted(e)
    ensures Explicit(e).Ok? ==> Says(e, Explicit(e).value)
  {
    if e != [] {
      var n := |e| - 1;
      ExplicitExactly(e[..n]);
      AcceptedSnoc(e);
      if Explicit(e).Ok? { SaysSnoc(e, Explicit(e[..n]).value); }
    }
  }

  lemma {:induction false} CountConcat(a: seq<Reading>, b: seq<Reading>, r: Route)
    ensures Count(a + b, r) == Count(a, r) + Count(b, r)
  {
    if b == [] {
      assert a + b == a;
    } else {
      assert (a + b)[..|a + b| - 1] == a + b[..|b| - 1];
      CountConcat(a, b[..|b| - 1], r);
    }
  }

  lemma ReadConcat(a: seq<string>, b: seq<string>)
    ensures ReadAll(a + b) == ReadAll(a) + ReadAll(b)
  {
  }

  lemma CountPick(front: seq<string>, one: string, back: seq<string>, r: Route)
    ensures Count(ReadAll(front + [one] + back), r) == Count(ReadAll(front + back), r) + Count(ReadAll([one]), r)
  {
    ReadConcat(front + [one], back);
    ReadConcat(front, [one]);
    ReadConcat(front, back);
    CountConcat(ReadAll(front) + ReadAll([one]), ReadAll(back), r);
    CountConcat(ReadAll(front), ReadAll([one]), r);
    CountConcat(ReadAll(front), ReadAll(back), r);
  }

  lemma CountLast(front: seq<string>, one: string, r: Route)
    ensures Count(ReadAll(front + [one]), r) == Count(ReadAll(front), r) + Count(ReadAll([one]), r)
  {
    ReadConcat(front, [one]);
    CountConcat(ReadAll(front), ReadAll([one]), r);
  }

  lemma {:induction false} CountPermuted(a: seq<string>, b: seq<string>, r: Route)
    requires multiset(a) == multiset(b)
    ensures Count(ReadAll(a), r) == Count(ReadAll(b), r)
  {
    SameMembers(a, b);
    if a != [] {
      var n := |a| - 1;
      var i := Unpick(a, b);
      CountPermuted(a[..n], b[..i] + b[i + 1..], r);
      CountPick(b[..i], b[i], b[i + 1..], r);
      CountLast(a[..n], b[i], r);
    }
  }

  lemma AcceptedPermuted(a: seq<string>, b: seq<string>)
    requires multiset(a) == multiset(b) && Accepted(ReadAll(a))
    ensures Accepted(ReadAll(b))
  {
    SameMembers(a, b);
    forall j | 0 <= j < |b| ensures ReadAll(b)[j].Setting? {
      assert b[j] in a;
      var i :| 0 <= i < |a| && a[i] == b[j];
      assert ReadAll(a)[i].Setting?;
    }
    forall r ensures Count(ReadAll(b), r) <= 1 {
      CountPermuted(a, b, r);
      assert Count(ReadAll(a), r) <= 1;
    }
  }

  /** The order of the entries does not matter. */
  lemma OrderIrrelevant(a: seq<string>, b: seq<string>)
    requires multiset(a) == multiset(b)
    ensures Explicit(ReadAll(a)).Ok? <==> Explicit(ReadAll(b)).Ok?
    ensures Explicit(ReadAll(a)).Ok? ==> Explicit(ReadAll(a)).value == Explicit(ReadAll(b)).value
  {
    var e, f := ReadAll(a), ReadAll(b);
    ExplicitExactly(e);
    ExplicitExactly(f);
    if Accepted(e) { AcceptedPermuted(a, b); }
    if Accepted(f) { AcceptedPermuted(b, a); }
    if Explicit(e).Ok? {
      var m, k := Explicit(e).value, Explicit(f).value;
      SameMembers(a, b);
      forall r ensures r in m <==> r in k { CountPermuted(a, b, r); }
      forall r | r in m ensures m[r] == k[r] {
        CountPositive(e, r);
        var i :| 0 <= i < |e| && e[i].Setting? && e[i].route == r;
        assert a[i] in b;
        var j :| 0 <= j < |b| && b[j] == a[i];
        assert e[i] == f[j];
      }
    }
  }

  /** The first entry that cannot be taken decides the error; a route met before is the first thing wrong with one. */
  lemma FirstErrorExactly(e: seq<Reading>, n: nat, r: Route, mode: Mode, error: Error)
    requires n < |e| && Explicit(e[..n]).Ok?
    ensures e[n] == Bad(error) ==> Explicit(e) == Err(error)
    ensures e[n] == BadMode(r) ==>
              Explicit(e) == Err(if exists j :: 0 <= j < n && e[j].Setting? && e[j].route == r then DuplicateRoute else UnknownMode)
    ensures e[n] == Setting(r, mode) && (exists j :: 0 <= j < n && e[j].Setting? && e[j].route == r) ==>
              Explicit(e) == Err(DuplicateRoute)
  {
    ExplicitExactly(e[..n]);
    CountPositive(e[..n], r);
    assert e[..n + 1][..n] == e[..n];
    assert forall j :: 0 <= j < n ==> e[..n][j] == e[j];
    if Explicit(e[..n + 1]).Err? { FirstErrorStops(e, n + 1); }
  }

  // ----- one entry -----

  lemma {:induction false} SplitParts(s: string, sep: char)
    ensures |Text.Split(s, sep)| == multiset(s)[sep] + 1
  {
    if s != "" {
      assert s == [s[0]] + s[1..];
      SplitParts(s[1..], sep);
    }
  }

  /** An entry is empty, or not of the form route:mode, exactly when trimmed it has no text, or not one colon. */
  lemma ShapeExactly(entry: string)
    ensures Read(entry) == Bad(EmptyEntry) <==> Text.Trim(entry) == ""
    ensures Read(entry) == Bad(NotRouteMode) <==> Text.Trim(entry) != "" && multiset(Text.Trim(entry))[':'] != 1
  {
    SplitParts(Text.Trim(entry), ':');
  }

  /** The two names of an entry are read on their own: spaces around them and upper case do not count. */
  lemma EntryExactly(a: string, b: string, c: string, d: string, route: string, mode: string)
    requires Spaces(a) && Spaces(b) && Spaces(c) && Spaces(d)
    requires route != "" && Text.Trimmed(route) && ':' !in route && mode != "" && Text.Trimmed(mode) && ':' !in mode
    ensures Read(a + (route + b + ":" + c + mode) + d) ==
            var r, m := RouteOf(Text.Lower(route), ROUTES), ModeOf(Text.Lower(mode), MODES);
            if r.None? then Bad(UnknownRoute) else if m.None? then BadMode(r.value) else Setting(r.value, m.value)
  {
    var middle := route + b + ":" + c + mode;
    EntryTrims(a, middle, d, route, mode);
    EntryParts(route, b, c, mode);
    SideTrimmed(b, c, route, mode);
    ReadByParts(a + middle + d, middle, route + b, c + mode, route, mode);
  }

  predicate Spaces(s: string) {
    forall i :: 0 <= i < |s| ==> Text.IsSpace(s[i])
  }

  lemma SideTrimmed(b: string, c: string, route: string, mode: string)
    requires Spaces(b) && Spaces(c) && route != "" && Text.Trimmed(route) && mode != "" && Text.Trimmed(mode)
    ensures Text.Trim(route + b) == route && Text.Trim(c + mode) == mode
  {
    Text.TrimExactly("", route, b);
    Text.TrimExactly(c, mode, "");
    assert "" + route + b == route + b && c + mode + "" == c + mode;
  }

  lemma ReadByParts(entry: string, text: string, first: string, second: string, route: string, mode: string)
    requires Text.Trim(entry) == text && text != "" && Text.Split(text, ':') == [first, second]
    requires Text.Trim(first) == route && Text.Trim(second) == mode
    ensures Read(entry) ==
            var r, m := RouteOf(Text.Lower(route), ROUTES), ModeOf(Text.Lower(mode), MODES);
            if r.None? then Bad(UnknownRoute) else if m.None? then BadMode(r.value) else Setting(r.value, m.value)
  {
  }

  lemma EntryTrims(before: string, middle: string, after: string, route: string, mode: string)
    requires Spaces(before) && Spaces(after)
    requires route != "" && Text.Trimmed(route) && mode != "" && Text.Trimmed(mode)
    requires route <= middle && |mode| < |middle| && middle[|middle| - |mode|..] == mode
    ensures Text.Trim(before + middle + after) == middle && middle != ""
  {
    assert middle[0] == route[0];
    assert middle[|middle| - 1] == middle[|middle| - |mode|..][|mode| - 1];
    Text.TrimExactly(before, middle, after);
  }

  lemma EntryParts(route: string, b: string, c: string, mode: string)
    requires ':' !in route && ':' !in mode
    requires Spaces(b) && Spaces(c)
    ensures Text.Split(route + b + ":" + c + mode, ':') == [route + b, c + mode]
  {
    assert ':' !in route + b && ':' !in c + mode;
    assert route + b + ":" + c + mode == (route + b) + [':'] + (c + mode);
    Text.SplitPrefix(route + b, c + mode, ':');
    Text.SplitFree(c + mode, ':');
  }

  /** A mode is one of off, shadow and active. */
  lemma ModesExactly(raw: string)
    ensures var text := Text.Lower(Text.Trim(raw));
            && (ParseMode(raw) == Some(Off) <==> text == "off")
            && (ParseMode(raw) == Some(Shadow) <==> text == "shadow")
            && (ParseMode(raw) == Some(Active) <==> text == "active")
            && (ParseMode(raw) == None <==> text != "off" && text != "shadow" && text != "active")
  {
    NamesFound(SaleInvoice, Off);
    NamesFound(SaleInvoice, Shadow);
    NamesFound(SaleInvoice, Active);
  }

  /** The five routes by their texts. */
  lemma RoutesExactly(text: string)
    ensures RouteOf(text, ROUTES) == Some(SaleInvoice) <==> text == "saleinvoice"
    ensures RouteOf(text, ROUTES) == Some(SaleOrder) <==> text == "saleorder"
    ensures RouteOf(text, ROUTES) == Some(SaleOrderCancel) <==> text == "saleordercancel"
    ensures RouteOf(text, ROUTES) == Some(SaleInvoiceCancel) <==> text == "saleinvoicecancel"
    ensures RouteOf(text, ROUTES) == Some(CreditNote) <==> text == "creditnote"
  {
    NamesFound(SaleInvoice, Off);
    NamesFound(SaleOrder, Off);
    NamesFound(SaleOrderCancel, Off);
    NamesFound(SaleInvoiceCancel, Off);
    NamesFound(CreditNote, Off);
  }

  /** Without entries only the sale invoice follows the older setting, which must itself be a mode. */
  lemma NothingListed(blank: string, legacy: string)
    requires Text.Trim(blank) == ""
    ensures var text, result := Text.Lower(Text.Trim(legacy)), Parsed(blank, legacy);
            && (result.Err? <==> text !in {"off", "shadow", "active"})
            && (result.Err? ==> result.error == UnknownMode)
            && (result.Ok? ==>
                  var invoice := if text == "off" then Off else if text == "shadow" then Shadow else Active;
                  forall r :: r in result.value && result.value[r] == if r == SaleInvoice then invoice else Off)
  {
    ModesExactly(legacy);
    var mode := ParseMode(legacy);
    if mode.Some? {
      forall r ensures r in Defaults(mode.value) { AllDefault(r, mode.value); }
    }
  }

  // ----- printing -----

  function PrintEntry(r: Route, m: Mode): string {
    RouteName(r) + ":" + ModeName(m)
  }

  function PrintEntries(order: seq<Route>, m: Route -> Mode): (e: seq<string>)
    ensures |e| == |order|
  {
    seq(|order|, i requires 0 <= i < |order| => PrintEntry(order[i], m(order[i])))
  }

  function Settings(order: seq<Route>, m: Route -> Mode): (e: seq<Reading>)
    ensures |e| == |order|
  {
    seq(|order|, i requires 0 <= i < |order| => Setting(order[i], m(order[i])))
  }

  function Print(order: seq<Route>, m: Route -> Mode): string {
    if order == [] then "" else Text.Join(PrintEntries(order, m), ',')
  }

  predicate Letters(s: string) {
    forall i :: 0 <= i < |s| ==> 'a' <= s[i] <= 'z'
  }

  lemma NamesAreLetters(r: Route, m: Mode)
    ensures Letters(RouteName(r)) && RouteName(r) != "" && Letters(ModeName(m)) && ModeName(m) != ""
  {
  }

  lemma LettersPlain(s: string)
    requires Letters(s)
    ensures Plain(s) == s && Text.Free(s, ':') && Text.Free(s, ',') && Text.Trimmed(s)
  {
    Text.TrimIdentity(s);
  }

  lemma NamesFound(r: Route, m: Mode)
    ensures RouteOf(RouteName(r), ROUTES) == Some(r) && ModeOf(ModeName(m), MODES) == Some(m)
  {
    RoutesDiffer();
    ModesDiffer();
    RouteFound(r, ROUTES);
    ModeFound(m, MODES);
  }

  lemma RoutesDiffer()
    ensures forall a, b :: RouteName(a) == RouteName(b) ==> a == b
  {
    forall a, b | RouteName(a) == RouteName(b) ensures a == b { assert |RouteName(a)| == |RouteName(b)|; }
  }

  lemma ModesDiffer()
    ensures forall a, b :: ModeName(a) == ModeName(b) ==> a == b
  {
    forall a, b | ModeName(a) == ModeName(b) ensures a == b { assert ModeName(a)[0] == ModeName(b)[0]; }
  }

  lemma {:induction false} RouteFound(r: Route, among: seq<Route>)
    requires r in among && forall a, b :: RouteName(a) == RouteName(b) ==> a == b
    ensures RouteOf(RouteName(r), among) == Some(r)
  {
    if among[0] != r { RouteFound(r, among[1..]); }
  }

  lemma {:induction false} ModeFound(m: Mode, among: seq<Mode>)
    requires m in among && forall a, b :: ModeName(a) == ModeName(b) ==> a == b
    ensures ModeOf(ModeName(m), among) == Some(m)
  {
    if among[0] != m { ModeFound(m, among[1..]); }
  }

  lemma FreeEntry(name: string, mode: string)
    requires Text.Free(name, ',') && Text.Free(mode, ',')
    ensures Text.Free(name + ":" + mode, ',')
  {
  }

  lemma EntryTrimmed(r: Route, m: Mode)
    ensures PrintEntry(r, m) != "" && Text.Trimmed(PrintEntry(r, m)) && Text.Trim(PrintEntry(r, m)) == PrintEntry(r, m)
  {
    var e, name, mode := PrintEntry(r, m), RouteName(r), ModeName(m);
    NamesAreLetters(r, m);
    assert e[0] == name[0] && e[|e| - 1] == mode[|mode| - 1];
    Text.TrimIdentity(e);
  }

  lemma EntrySplits(r: Route, m: Mode)
    ensures Text.Split(PrintEntry(r, m), ':') == [RouteName(r), ModeName(m)] && Text.Free(PrintEntry(r, m), ',')
  {
    var name, mode := RouteName(r), ModeName(m);
    NamesAreLetters(r, m);
    LettersPlain(name);
    LettersPlain(mode);
    assert PrintEntry(r, m) == name + [':'] + mode;
    Text.SplitPrefix(name, mode, ':');
    Text.SplitFree(mode, ':');
    FreeEntry(name, mode);
  }

  lemma EntryReads(r: Route, m: Mode)
    ensures Read(PrintEntry(r, m)) == Setting(r, m)
  {
    NamesAreLetters(r, m);
    LettersPlain(RouteName(r));
    LettersPlain(ModeName(m));
    NamesFound(r, m);
    EntryTrimmed(r, m);
    EntrySplits(r, m);
  }

  lemma {:induction false} JoinEnds(parts: seq<string>)
    requires parts != [] && forall i :: 0 <= i < |parts| ==> parts[i] != "" && Text.Trimmed(parts[i])
    ensures Text.Join(parts, ',') != "" && Text.Trimmed(Text.Join(parts, ','))
  {
    if |parts| > 1 {
      JoinEnds(parts[1..]);
      var s, rest := Text.Join(parts, ','), Text.Join(parts[1..], ',');
      assert s[0] == parts[0][0] && s[|s| - 1] == rest[|rest| - 1];
    }
  }

  /** Printed entries read back as they were. */
  lemma PrintReads(order: seq<Route>, m: Route -> Mode)
    ensures ReadAll(Entries(Print(order, m))) == Settings(order, m)
  {
    if order != [] {
      var parts := PrintEntries(order, m);
      forall i | 0 <= i < |parts|
        ensures parts[i] != "" && Text.Trimmed(parts[i]) && Text.Free(parts[i], ',') && Read(parts[i]) == Setting(order[i], m(order[i]))
      {
        EntryTrimmed(order[i], m(order[i]));
        EntrySplits(order[i], m(order[i]));
        EntryReads(order[i], m(order[i]));
      }
      JoinEnds(parts);
      Text.TrimIdentity(Text.Join(parts, ','));
      Text.SplitJoin(parts, ',');
    }
  }

  predicate Distinct(order: seq<Route>) {
    forall i, j :: 0 <= i < j < |order| ==> order[i] != order[j]
  }

  lemma {:induction false} SettingsCount(order: seq<Route>, m: Route -> Mode, r: Route)
    ensures Distinct(order) ==> Count(Settings(order, m), r) == if r in order then 1 else 0
    ensures r in order ==> Count(Settings(order, m), r) >= 1
    ensures Count(Settings(order, m), r) <= 1 ==> forall i, j :: 0 <= i < j < |order| && order[i] == r ==> order[j] != r
  {
    if order != [] {
      var n := |order| - 1;
      assert Settings(order, m)[..n] == Settings(order[..n], m);
      SettingsCount(order[..n], m, r);
      assert order == order[..n] + [order[n]];
    }
  }

  /** Any listing of routes, in any order, is accepted exactly when no route comes twice. */
  lemma PrintAcceptedExactly(order: seq<Route>, m: Route -> Mode)
    ensures Explicit(ReadAll(Entries(Print(order, m)))).Ok? <==> Distinct(order)
  {
    var e := Settings(order, m);
    PrintReads(order, m);
    ExplicitExactly(e);
    if Distinct(order) {
      forall r ensures Count(e, r) <= 1 { SettingsCount(order, m, r); }
    }
    if Accepted(e) {
      forall i, j | 0 <= i < j < |order| ensures order[i] != order[j] {
        assert Count(e, order[i]) <= 1;
        SettingsCount(order, m, order[i]);
      }
    }
  }

  predicate Covers(result: Result<Modes, Error>, order: seq<Route>, m: Route -> Mode, legacy: Mode) {
    result.Ok? &&
    forall r :: r in result.value
                && result.value[r] == if r in order then m(r) else if r == SaleInvoice then legacy else Off
  }

  lemma SettingsCover(order: seq<Route>, m: Route -> Mode, legacy: Mode)
    requires Distinct(order)
    ensures Covers(OnDefaults(Some(legacy), Explicit(Settings(order, m))), order, m, legacy)
  {
    var e := Settings(order, m);
    ExplicitExactly(e);
    forall r ensures Count(e, r) <= 1 && (Count(e, r) > 0 <==> r in order) { SettingsCount(order, m, r); }
    var explicit := Explicit(e).value;
    forall r | r in order ensures r in explicit && explicit[r] == m(r) {
      var i :| 0 <= i < |order| && order[i] == r;
      assert e[i] == Setting(r, m(r));
    }
    forall r ensures r in Defaults(legacy) { AllDefault(r, legacy); }
  }

  lemma AllDefault(r: Route, legacy: Mode)
    ensures r in Defaults(legacy)
  {
  }

  lemma LegacyReads(legacy: Mode)
    ensures ParseMode(ModeName(legacy)) == Some(legacy)
  {
    NamesAreLetters(SaleInvoice, legacy);
    LettersPlain(ModeName(legacy));
    NamesFound(SaleInvoice, legacy);
  }

  /**
   * Printing any routes, each once and in any order, and parsing gives back their modes;
   * the routes not listed keep their defaults.
   */
  lemma PrintParses(order: seq<Route>, m: Route -> Mode, legacy: Mode)
    requires Distinct(order)
    ensures Covers(Parsed(Print(order, m), ModeName(legacy)), order, m, legacy)
  {
    LegacyReads(legacy);
    PrintReads(order, m);
    SettingsCover(order, m, legacy);
  }

  /** A total assignment of modes survives printing in the standard order, whatever the older setting says. */
  lemma RoundTrip(m: Route -> Mode, legacy: Mode)
    ensures var result := Parsed(Print(ROUTES, m), ModeName(legacy));
            result.Ok? && forall r :: r in result.value && result.value[r] == m(r)
  {
    assert Distinct(ROUTES);
    PrintParses(ROUTES, m, legacy);
    forall r ensures r in ROUTES {
      assert ROUTES[0] == SaleInvoice && ROUTES[1] == SaleOrder && ROUTES[2] == SaleOrderCancel
             && ROUTES[3] == SaleInvoiceCancel && ROUTES[4] == CreditNote;
    }
  }
}
