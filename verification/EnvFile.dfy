/** Reading and rewriting an environment file, as lines without line breaks. */
module EnvFile {
  import opened Wrappers
  import Text

  datatype Assignment = Assignment(key: string, value: string)

  function FirstEquals(line: string): (i: nat)
    ensures i <= |line|
    ensures i < |line| ==> line[i] == '='
    ensures forall j :: 0 <= j < i ==> line[j] != '='
  {
    if line == "" || line[0] == '=' then 0 else 1 + FirstEquals(line[1..])
  }

  /** A line assigns unless it is blank, a comment, or has no equals sign; key and value are trimmed. */
  function Assigned(line: string): Option<Assignment> {
    var left := Text.TrimLeft(line);
    if Text.Trim(line) == "" || (left != "" && left[0] == '#') || '=' !in line then None
    else
      var i := FirstEquals(line);
      Some(Assignment(Text.Trim(line[..i]), if i < |line| then Text.Trim(line[i + 1..]) else ""))
  }

  predicate Spaces(s: string) {
    forall i :: 0 <= i < |s| ==> Text.IsSpace(s[i])
  }

  lemma {:induction false} LeftFrom(line: string, i: nat)
    requires i < |line| && !Text.IsSpace(line[i]) && forall j :: 0 <= j < i ==> Text.IsSpace(line[j])
    ensures Text.TrimLeft(line) == line[i..]
  {
    if i > 0 {
      LeftFrom(line[1..], i - 1);
      assert line[1..][i - 1..] == line[i..];
    }
  }

  lemma FirstText(line: string) returns (i: nat)
    requires exists k :: 0 <= k < |line| && !Text.IsSpace(line[k])
    ensures i < |line| && !Text.IsSpace(line[i]) && forall j :: 0 <= j < i ==> Text.IsSpace(line[j])
  {
    i := 0;
    while Text.IsSpace(line[i])
      invariant i < |line| && forall j :: 0 <= j < i ==> Text.IsSpace(line[j])
      decreases |line| - i
    {
      i := i + 1;
    }
  }

  /** A line assigns exactly when it has an equals sign and its first text is not a number sign. */
  lemma AssignsExactly(line: string)
    ensures Assigned(line).Some? <==>
            '=' in line && !(exists i :: 0 <= i < |line| && line[i] == '#' && forall j :: 0 <= j < i ==> Text.IsSpace(line[j]))
  {
    if '=' in line {
      var k :| 0 <= k < |line| && line[k] == '=';
      Text.TrimKeeps(line, k);
      var i := FirstText(line);
      LeftFrom(line, i);
      assert (exists n :: 0 <= n < |line| && line[n] == '#' && forall j :: 0 <= j < n ==> Text.IsSpace(line[j])) <==> line[i] == '#';
    }
  }

  /** The first equals sign parts key from value, and space around either does not count. */
  lemma AssignedExactly(a: string, key: string, b: string, c: string, value: string, d: string)
    requires Spaces(a) && Spaces(b) && Spaces(c) && Spaces(d)
    requires key != "" && Text.Trimmed(key) && key[0] != '#' && '=' !in key && value != "" && Text.Trimmed(value)
    ensures Assigned((a + key + b) + "=" + (c + value + d)) == Some(Assignment(key, value))
  {
    var left, right := a + key + b, c + value + d;
    var line := left + "=" + right;
    assert line[|a|] == key[0];
    LeftFrom(line, |a|);
    assert line[|left|] == '=';
    Text.TrimKeeps(line, |left|);
    assert '=' !in left;
    SplitAt(left, right);
    Text.TrimExactly(a, key, b);
    Text.TrimExactly(c, value, d);
  }

  lemma SplitAt(left: string, right: string)
    requires '=' !in left
    ensures var line := left + "=" + right;
            FirstEquals(line) == |left| && line[..|left|] == left && line[|left| + 1..] == right
  {
    var line := left + "=" + right;
    assert line[|left|] == '=' && forall j :: 0 <= j < |left| ==> line[j] == left[j] && left[j] in left;
  }

  type Entries = seq<Option<Assignment>>

  function Parsed(lines: seq<string>): (e: Entries)
    ensures |e| == |lines|
  {
    seq(|lines|, i requires 0 <= i < |lines| => Assigned(lines[i]))
  }

  /** A later assignment wins. */
  function Fold(e: Entries): map<string, string> {
    if e == [] then map[]
    else
      var front, last := Fold(e[..|e| - 1]), e[|e| - 1];
      if last.None? then front else front[last.value.key := last.value.value]
  }

  function Values(lines: seq<string>): map<string, string> {
    Fold(Parsed(lines))
  }

  method ReadEnv(lines: seq<string>) returns (values: map<string, string>)
    ensures values == Values(lines)
  {
    values := map[];
    ghost var e := Parsed(lines);
    for i := 0 to |lines|
      invariant values == Fold(e[..i])
    {
      assert e[..i + 1][..i] == e[..i];
      var a := Assigned(lines[i]);
      if a.Some? { values := values[a.value.key := a.value.value]; }
    }
    assert e[..|lines|] == e;
  }

  // ----- rewriting -----

  /** The updates, in the order of the dictionary that holds them. */
  type Updates = seq<Assignment>

  function Line(a: Assignment): string {
    a.key + "=" + a.value
  }

  predicate Clean(a: Assignment) {
    && a.key != "" && Text.Trimmed(a.key) && a.key[0] != '#' && '=' !in a.key
    && Text.Trimmed(a.value)
  }

  function Dict(u: Updates): map<string, string> {
    if u == [] then map[] else Dict(u[1..])[u[0].key := u[0].value]
  }

  predicate AllClean(u: Updates) {
    forall i :: 0 <= i < |u| ==> Clean(u[i])
  }

  predicate Distinct(u: Updates) {
    forall i, j :: 0 <= i < j < |u| ==> u[i].key != u[j].key
  }

  predicate Good(u: Updates) {
    AllClean(u) && Distinct(u)
  }

  predicate Touches(a: Option<Assignment>, d: map<string, string>) {
    a.Some? && a.value.key in d
  }

  function NewEntry(a: Option<Assignment>, d: map<string, string>): Option<Assignment> {
    if Touches(a, d) then Some(Assignment(a.value.key, d[a.value.key])) else a
  }

  /** A line with its reading: rewritten if it assigns an updated key. */
  function Replaced(line: string, a: Option<Assignment>, d: map<string, string>): string {
    if Touches(a, d) then Line(NewEntry(a, d).value) else line
  }

  function ReplacedAll(lines: seq<string>, e: Entries, d: map<string, string>): (r: seq<string>)
    requires |e| == |lines|
    ensures |r| == |lines|
  {
    seq(|lines|, i requires 0 <= i < |lines| => Replaced(lines[i], e[i], d))
  }

  /** The updates whose keys were not met, in order. */
  function Unmet(u: Updates, seen: set<string>): Updates {
    if u == [] then [] else (if u[0].key in seen then [] else [u[0]]) + Unmet(u[1..], seen)
  }

  function LinesOf(u: Updates): (r: seq<string>)
    ensures |r| == |u|
  {
    seq(|u|, i requires 0 <= i < |u| => Line(u[i]))
  }

  function Rewritten(lines: seq<string>, e: Entries, u: Updates): seq<string>
    requires |e| == |lines|
  {
    ReplacedAll(lines, e, Dict(u)) + LinesOf(Unmet(u, Fold(e).Keys * Dict(u).Keys))
  }

  function Upserted(lines: seq<string>, u: Updates): seq<string> {
    Rewritten(lines, Parsed(lines), u)
  }

  /** The lines as some parser reads them. */
  function ReadBy(parse: string -> Option<Assignment>, lines: seq<string>): (e: Entries)
    ensures |e| == |lines|
  {
    seq(|lines|, i requires 0 <= i < |lines| => parse(lines[i]))
  }

  /** Every line in place, rewritten if it assigns an updated key, and the updated keys met. */
  method ReplaceLines(parse: string -> Option<Assignment>, lines: seq<string>, updates: map<string, string>)
    returns (output: seq<string>, seen: set<string>)
    ensures output == ReplacedAll(lines, ReadBy(parse, lines), updates)
    ensures seen == Fold(ReadBy(parse, lines)).Keys * updates.Keys
  {
    output, seen := [], {};
    ghost var e := ReadBy(parse, lines);
    for i := 0 to |lines|
      invariant |output| == i && forall j :: 0 <= j < i ==> output[j] == Replaced(lines[j], e[j], updates)
      invariant seen == Fold(e[..i]).Keys * updates.Keys
    {
      FoldStep(e, i, updates.Keys);
      var a := parse(lines[i]);
      if Touches(a, updates) {
        output := output + [Line(NewEntry(a, updates).value)];
        seen := seen + {a.value.key};
      } else {
        output := output + [lines[i]];
      }
    }
    assert e[..|lines|] == e;
  }

  lemma FoldStep(e: Entries, i: nat, keys: set<string>)
    requires i < |e|
    ensures Fold(e[..i + 1]).Keys * keys ==
            Fold(e[..i]).Keys * keys + (if e[i].Some? && e[i].value.key in keys then {e[i].value.key} else {})
  {
    assert e[..i + 1][..i] == e[..i];
  }

  /** First every line in place, then the updates whose keys the file did not have. */
  method Upsert(lines: seq<string>, u: Updates) returns (output: seq<string>)
    ensures output == Upserted(lines, u)
  {
    var seen;
    output, seen := ReplaceLines(Assigned, lines, Dict(u));
    assert ReadBy(Assigned, lines) == Parsed(lines);
    var unmet := AppendUnmet(u, seen);
    output := output + LinesOf(unmet);
  }

  method AppendUnmet(u: Updates, seen: set<string>) returns (unmet: Updates)
    ensures unmet == Unmet(u, seen)
  {
    unmet := [];
    for j := 0 to |u|
      invariant unmet + Unmet(u[j..], seen) == Unmet(u, seen)
    {
      assert u[j..][1..] == u[j + 1..];
      if u[j].key !in seen { unmet := unmet + [u[j]]; }
    }
  }

  // ----- what a written line reads as -----

  lemma CleanLine(a: Assignment)
    requires Clean(a)
    ensures Assigned(Line(a)) == Some(a)
  {
    var line := Line(a);
    assert line[0] == a.key[0] && !Text.IsSpace(line[0]);
    assert line[|a.key|] == '=';
    Text.TrimKeeps(line, 0);
    assert Text.TrimLeft(line) == line;
    assert forall j :: 0 <= j < |a.key| ==> line[j] == a.key[j] && a.key[j] in a.key;
    assert FirstEquals(line) == |a.key|;
    assert line[..|a.key|] == a.key && line[|a.key| + 1..] == a.value;
    Text.TrimIdentity(a.key);
    Text.TrimIdentity(a.value);
  }

  lemma {:induction false} DictKeys(u: Updates, key: string)
    ensures key in Dict(u) <==> exists i :: 0 <= i < |u| && u[i].key == key
    ensures key in Dict(u) ==> exists i :: 0 <= i < |u| && u[i] == Assignment(key, Dict(u)[key])
  {
    if u != [] {
      DictKeys(u[1..], key);
      if key in Dict(u[1..]) {
        var i :| 0 <= i < |u| - 1 && u[1..][i] == Assignment(key, Dict(u[1..])[key]);
        assert u[i + 1] == Assignment(key, Dict(u[1..])[key]);
      }
      if i :| 0 <= i < |u| && u[i].key == key {
        if i > 0 { assert u[1..][i - 1].key == key; }
      }
    }
  }

  lemma ReplacedReads(line: string, u: Updates)
    requires AllClean(u)
    ensures Assigned(Replaced(line, Assigned(line), Dict(u))) == NewEntry(Assigned(line), Dict(u))
  {
    var a := Assigned(line);
    if Touches(a, Dict(u)) {
      DictKeys(u, a.value.key);
      CleanLine(NewEntry(a, Dict(u)).value);
    }
  }

  function NewEntries(e: Entries, d: map<string, string>): (r: Entries)
    ensures |r| == |e|
  {
    seq(|e|, i requires 0 <= i < |e| => NewEntry(e[i], d))
  }

  function EntriesOf(u: Updates): (r: Entries)
    ensures |r| == |u|
  {
    seq(|u|, i requires 0 <= i < |u| => Some(u[i]))
  }

  lemma UnmetClean(u: Updates, seen: set<string>)
    requires AllClean(u)
    ensures AllClean(Unmet(u, seen))
  {
    if u != [] {
      assert u[0] == u[0] && forall i :: 0 <= i < |u| - 1 ==> u[1..][i] == u[i + 1];
      UnmetClean(u[1..], seen);
    }
  }

  lemma ParsedLines(u: Updates)
    requires AllClean(u)
    ensures Parsed(LinesOf(u)) == EntriesOf(u)
  {
    forall i | 0 <= i < |u| ensures Assigned(LinesOf(u)[i]) == Some(u[i]) { CleanLine(u[i]); }
  }

  lemma ParsedReplaced(lines: seq<string>, u: Updates)
    requires AllClean(u)
    ensures Parsed(ReplacedAll(lines, Parsed(lines), Dict(u))) == NewEntries(Parsed(lines), Dict(u))
  {
    var out := ReplacedAll(lines, Parsed(lines), Dict(u));
    forall i | 0 <= i < |lines| ensures Assigned(out[i]) == NewEntry(Parsed(lines)[i], Dict(u)) { ReplacedReads(lines[i], u); }
  }

  lemma ParsedConcat(a: seq<string>, b: seq<string>)
    ensures Parsed(a + b) == Parsed(a) + Parsed(b)
  {
  }

  lemma UpsertedEntries(lines: seq<string>, u: Updates)
    requires AllClean(u)
    ensures Parsed(Upserted(lines, u)) ==
            NewEntries(Parsed(lines), Dict(u)) + EntriesOf(Unmet(u, Values(lines).Keys * Dict(u).Keys))
  {
    var unmet := Unmet(u, Values(lines).Keys * Dict(u).Keys);
    UnmetClean(u, Values(lines).Keys * Dict(u).Keys);
    ParsedReplaced(lines, u);
    ParsedLines(unmet);
    ParsedConcat(ReplacedAll(lines, Parsed(lines), Dict(u)), LinesOf(unmet));
  }

  // ----- what the entries fold to -----

  lemma {:induction false} FoldConcat(a: Entries, b: Entries)
    ensures Fold(a + b) == Fold(a) + Fold(b)
  {
    if b == [] {
      assert a + b == a;
    } else {
      assert (a + b)[..|a + b| - 1] == a + b[..|b| - 1];
      FoldConcat(a, b[..|b| - 1]);
    }
  }

  function Overridden(v: map<string, string>, d: map<string, string>): map<string, string> {
    map k | k in v :: if k in d then d[k] else v[k]
  }

  lemma {:induction false} FoldNew(e: Entries, d: map<string, string>)
    ensures Fold(NewEntries(e, d)) == Overridden(Fold(e), d)
  {
    if e != [] {
      assert NewEntries(e, d)[..|e| - 1] == NewEntries(e[..|e| - 1], d);
      FoldNew(e[..|e| - 1], d);
    }
  }

  lemma DistinctTail(u: Updates)
    requires Distinct(u) && u != []
    ensures Distinct(u[1..]) && u[0].key !in Dict(u[1..])
  {
    DictKeys(u[1..], u[0].key);
  }

  lemma MinusSeen(m: map<string, string>, k: string, v: string, seen: set<string>)
    requires k !in m
    ensures m[k := v] - seen == if k in seen then m - seen else map[k := v] + (m - seen)
  {
  }

  lemma EntriesConcat(a: Assignment, u: Updates)
    ensures EntriesOf([a] + u) == [Some(a)] + EntriesOf(u)
    ensures Fold([Some(a)]) == map[a.key := a.value]
  {
    var head: Entries := [Some(a)];
    assert head[..0] == [];
  }

  lemma {:induction false} FoldUnmet(u: Updates, seen: set<string>)
    requires Distinct(u)
    ensures Fold(EntriesOf(Unmet(u, seen))) == Dict(u) - seen
  {
    if u != [] {
      var rest := Unmet(u[1..], seen);
      DistinctTail(u);
      FoldUnmet(u[1..], seen);
      MinusSeen(Dict(u[1..]), u[0].key, u[0].value, seen);
      if u[0].key in seen {
        assert Unmet(u, seen) == rest;
      } else {
        assert Unmet(u, seen) == [u[0]] + rest;
        EntriesConcat(u[0], rest);
        FoldConcat([Some(u[0])], EntriesOf(rest));
      }
    }
  }

  /** What is read back is the old file overridden by the updates. */
  lemma UpsertReads(lines: seq<string>, u: Updates)
    requires Good(u)
    ensures Values(Upserted(lines, u)) == Values(lines) + Dict(u)
  {
    var seen := Values(lines).Keys * Dict(u).Keys;
    UpsertedEntries(lines, u);
    FoldNew(Parsed(lines), Dict(u));
    FoldUnmet(u, seen);
    FoldConcat(NewEntries(Parsed(lines), Dict(u)), EntriesOf(Unmet(u, seen)));
  }

  // ----- rewriting again -----

  lemma {:induction false} NoneUnmet(u: Updates, seen: set<string>)
    requires Dict(u).Keys <= seen
    ensures Unmet(u, seen) == []
  {
    if u != [] {
      assert u[0].key in Dict(u);
      NoneUnmet(u[1..], seen);
    }
  }

  lemma {:induction false} UnmetFrom(u: Updates, seen: set<string>)
    requires Distinct(u)
    ensures forall i :: 0 <= i < |Unmet(u, seen)| ==>
              Unmet(u, seen)[i].key in Dict(u) && Dict(u)[Unmet(u, seen)[i].key] == Unmet(u, seen)[i].value
  {
    if u != [] {
      DistinctTail(u);
      UnmetFrom(u[1..], seen);
    }
  }

  /** Rewriting lines that read as rewritten ones changes nothing. */
  lemma RewrittenAgain(lines: seq<string>, e: Entries, u: Updates, out: seq<string>, f: Entries)
    requires |e| == |lines| && Distinct(u) && out == Rewritten(lines, e, u) && |f| == |out|
    requires f == NewEntries(e, Dict(u)) + EntriesOf(Unmet(u, Fold(e).Keys * Dict(u).Keys))
    requires Dict(u).Keys <= Fold(f).Keys
    ensures Rewritten(out, f, u) == out
  {
    var d := Dict(u);
    var unmet := Unmet(u, Fold(e).Keys * d.Keys);
    NoneUnmet(u, Fold(f).Keys * d.Keys);
    UnmetFrom(u, Fold(e).Keys * d.Keys);
    forall i | 0 <= i < |out| ensures Replaced(out[i], f[i], d) == out[i] {
      if i < |lines| {
        assert f[i] == NewEntry(e[i], d);
      } else {
        assert f[i] == Some(unmet[i - |lines|]) && out[i] == Line(unmet[i - |lines|]);
      }
    }
    assert ReplacedAll(out, f, d) == out;
  }

  /** Rewriting twice with the same updates is rewriting once. */
  lemma UpsertTwice(lines: seq<string>, u: Updates)
    requires Good(u)
    ensures Upserted(Upserted(lines, u), u) == Upserted(lines, u)
  {
    UpsertReads(lines, u);
    UpsertedEntries(lines, u);
    RewrittenAgain(lines, Parsed(lines), u, Upserted(lines, u), Parsed(Upserted(lines, u)));
  }

  /** The positions of lines that assign an updated key. */
  predicate TouchedAt(lines: seq<string>, i: nat, u: Updates)
    requires i < |lines|
  {
    Touches(Parsed(lines)[i], Dict(u))
  }

  lemma RewrittenOthers(lines: seq<string>, e: Entries, u: Updates, out: seq<string>, f: Entries)
    requires |e| == |lines| && Distinct(u) && out == Rewritten(lines, e, u) && |f| == |out|
    requires f == NewEntries(e, Dict(u)) + EntriesOf(Unmet(u, Fold(e).Keys * Dict(u).Keys))
    ensures |out| >= |lines|
    ensures forall i :: 0 <= i < |lines| ==> (Touches(f[i], Dict(u)) <==> Touches(e[i], Dict(u)))
    ensures forall i :: 0 <= i < |lines| && !Touches(e[i], Dict(u)) ==> out[i] == lines[i]
    ensures forall i :: |lines| <= i < |out| ==> Touches(f[i], Dict(u))
  {
    var unmet := Unmet(u, Fold(e).Keys * Dict(u).Keys);
    UnmetFrom(u, Fold(e).Keys * Dict(u).Keys);
    forall i | |lines| <= i < |out| ensures Touches(f[i], Dict(u)) { assert f[i] == Some(unmet[i - |lines|]); }
  }

  /** Every line without an updated key stays where it was; only lines with one are rewritten or added. */
  lemma OthersKept(lines: seq<string>, u: Updates)
    requires Good(u)
    ensures |Upserted(lines, u)| >= |lines|
    ensures forall i :: 0 <= i < |lines| ==> (TouchedAt(Upserted(lines, u), i, u) <==> TouchedAt(lines, i, u))
    ensures forall i :: 0 <= i < |lines| && !TouchedAt(lines, i, u) ==> Upserted(lines, u)[i] == lines[i]
    ensures forall i :: |lines| <= i < |Upserted(lines, u)| ==> TouchedAt(Upserted(lines, u), i, u)
    ensures forall i :: 0 <= i < |lines| && TouchedAt(lines, i, u) ==>
              var key := Assigned(lines[i]).value.key;
              key in Dict(u) && Upserted(lines, u)[i] == key + "=" + Dict(u)[key]
  {
    UpsertedEntries(lines, u);
    RewrittenOthers(lines, Parsed(lines), u, Upserted(lines, u), Parsed(Upserted(lines, u)));
  }

  lemma {:induction false} UnmetSplits(a: Updates, b: Updates, seen: set<string>)
    ensures Unmet(a + b, seen) == Unmet(a, seen) + Unmet(b, seen)
  {
    if a == [] {
      assert a + b == b;
    } else {
      assert (a + b)[1..] == a[1..] + b;
      UnmetSplits(a[1..], b, seen);
    }
  }

  /** What is added comes after the old lines, in the order of the updates, less those whose keys the file had. */
  lemma AddedExactly(lines: seq<string>, u: Updates)
    ensures |Upserted(lines, u)| >= |lines|
    ensures var added, unmet := Upserted(lines, u)[|lines|..], Unmet(u, Values(lines).Keys * Dict(u).Keys);
            |added| == |unmet| && forall i :: 0 <= i < |unmet| ==> added[i] == unmet[i].key + "=" + unmet[i].value
  {
  }

  lemma UnmetAt(a: Updates, x: Assignment, b: Updates, seen: set<string>)
    ensures Unmet(a + [x] + b, seen) == Unmet(a, seen) + (if x.key in seen then [] else [x]) + Unmet(b, seen)
  {
    UnmetSplits(a + [x], b, seen);
    UnmetSplits(a, [x], seen);
    assert Unmet([x], seen) == if x.key in seen then [] else [x] by { assert [x][1..] == []; }
  }
}
