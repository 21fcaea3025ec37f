/**
 * Switching a tenant between the central Shopee gateway and direct credentials: two files,
 * written one after the other, with a crash allowed in between.
 */
module TenantMode {
  import opened Wrappers
  import opened EnvFile
  import Text

  const MODE_KEY := "SHOPEE_OPEN_API_MODE"
  const ID_KEY := "SHOPEE_OPEN_API_PARTNER_ID"
  const SECRET_KEY := "SHOPEE_OPEN_API_PARTNER_KEY"

  datatype Credentials = Credentials(id: string, secret: string)

  predicate Complete(c: Credentials) {
    c.id != "" && c.secret != ""
  }

  function Get(values: map<string, string>, key: string): string {
    if key in values then values[key] else ""
  }

  /** The two credentials of a file's values, stripped once more. */
  function CredentialsIn(values: map<string, string>): Credentials {
    Credentials(Text.Trim(Get(values, ID_KEY)), Text.Trim(Get(values, SECRET_KEY)))
  }

  function CredentialsOf(lines: seq<string>): Credentials {
    CredentialsIn(Values(lines))
  }

  // ----- the files -----

  datatype Files = Files(env: seq<string>, rollback: Option<seq<string>>)

  function RollbackCredentials(f: Files): Credentials {
    if f.rollback.Some? then CredentialsOf(f.rollback.value) else Credentials("", "")
  }

  datatype Mode = Gateway | Direct | IdentityOnly

  /** The identity and feature settings of a run: clean, and none of them a mode or credential key. */
  predicate GoodSettings(settings: Updates) {
    Good(settings) && forall i :: 0 <= i < |settings| ==> settings[i].key !in {MODE_KEY, ID_KEY, SECRET_KEY}
  }

  function CredentialLines(c: Credentials): seq<string> {
    LinesOf([Assignment(ID_KEY, c.id), Assignment(SECRET_KEY, c.secret)])
  }

  /** What `direct` puts back: complete rollback credentials if there are any, else the active ones. */
  function Restorable(f: Files): Credentials {
    if Complete(RollbackCredentials(f)) then RollbackCredentials(f) else CredentialsOf(f.env)
  }

  /** The run stops with a message and writes nothing. */
  predicate Refused(f: Files, mode: Mode) {
    var active := CredentialsOf(f.env);
    || (mode.Gateway? && (active.id != "" || active.secret != "") && !Complete(active))
    || (mode.Direct? && !Complete(Restorable(f)))
  }

  function ModeUpdates(f: Files, mode: Mode): Updates {
    match mode
    case Gateway => [Assignment(MODE_KEY, "gateway"), Assignment(ID_KEY, ""), Assignment(SECRET_KEY, "")]
    case Direct => [Assignment(MODE_KEY, "direct"), Assignment(ID_KEY, Restorable(f).id), Assignment(SECRET_KEY, Restorable(f).secret)]
    case IdentityOnly => []
  }

  /** The rollback file after its write; only a gateway run with complete active credentials writes it. */
  function RollbackAfter(f: Files, mode: Mode): Option<seq<string>> {
    if mode.Gateway? && Complete(CredentialsOf(f.env)) then Some(CredentialLines(CredentialsOf(f.env))) else f.rollback
  }

  /** A run of the script; a crash comes after the rollback file and before the environment file. */
  function Switched(f: Files, settings: Updates, mode: Mode, crash: bool): Files {
    if Refused(f, mode) then f
    else Files(if crash then f.env else Upserted(f.env, settings + ModeUpdates(f, mode)), RollbackAfter(f, mode))
  }

  class Tenant {
    var env: seq<string>
    var rollback: Option<seq<string>>

    constructor (initial: Files)
      ensures Current() == initial
    {
      env, rollback := initial.env, initial.rollback;
    }

    function Current(): Files
      reads this
    {
      Files(env, rollback)
    }

    method PrepareModeUpdates(mode: Mode, current: map<string, string>) returns (updates: Option<Updates>)
      requires current == Values(env)
      modifies this`rollback
      ensures updates.None? <==> old(Refused(Current(), mode))
      ensures updates.None? ==> rollback == old(rollback)
      ensures updates.Some? ==> updates.value == old(ModeUpdates(Current(), mode)) && rollback == old(RollbackAfter(Current(), mode))
    {
      match mode
      case Gateway =>
        var active := CredentialsIn(current);
        if (active.id != "" || active.secret != "") && !Complete(active) { return None; }
        if Complete(active) { rollback := Some(CredentialLines(active)); }
        return Some([Assignment(MODE_KEY, "gateway"), Assignment(ID_KEY, ""), Assignment(SECRET_KEY, "")]);
      case Direct =>
        var credentials := Credentials("", "");
        if rollback.Some? {
          var values := ReadEnv(rollback.value);
          credentials := CredentialsIn(values);
        }
        if !Complete(credentials) { credentials := CredentialsIn(current); }
        if !Complete(credentials) { return None; }
        return Some([Assignment(MODE_KEY, "direct"), Assignment(ID_KEY, credentials.id), Assignment(SECRET_KEY, credentials.secret)]);
      case IdentityOnly =>
        return Some([]);
    }

    method Run(settings: Updates, mode: Mode, crash: bool)
      modifies this
      ensures Current() == old(Switched(Current(), settings, mode, crash))
    {
      var current := ReadEnv(env);
      var updates := PrepareModeUpdates(mode, current);
      if updates.None? || crash { return; }
      var output := Upsert(env, settings + updates.value);
      if output == env { return; }
      env := output;
    }
  }

  // ----- credentials through the files -----

  lemma KeysDiffer()
    ensures MODE_KEY != ID_KEY && MODE_KEY != SECRET_KEY && ID_KEY != SECRET_KEY
    ensures Text.Trimmed(MODE_KEY) && Text.Trimmed(ID_KEY) && Text.Trimmed(SECRET_KEY)
    ensures '=' !in MODE_KEY && '=' !in ID_KEY && '=' !in SECRET_KEY
  {
    assert |MODE_KEY| == 20 && |ID_KEY| == 26 && |SECRET_KEY| == 27;
  }

  predicate Stripped(c: Credentials) {
    Text.Trimmed(c.id) && Text.Trimmed(c.secret)
  }

  lemma CredentialsStripped(values: map<string, string>)
    ensures Stripped(CredentialsIn(values))
  {
  }

  function Written(mode: string, c: Credentials): Updates {
    [Assignment(MODE_KEY, mode), Assignment(ID_KEY, c.id), Assignment(SECRET_KEY, c.secret)]
  }

  lemma {:induction false} DictConcat(a: Updates, b: Updates)
    requires Distinct(a + b)
    ensures Dict(a + b) == Dict(a) + Dict(b)
  {
    if a == [] {
      assert a + b == b;
    } else {
      assert (a + b)[1..] == a[1..] + b;
      DistinctTail(a + b);
      assert a[0].key !in Dict(a[1..] + b);
      DictConcat(a[1..], b);
    }
  }

  lemma WrittenDict(mode: string, c: Credentials)
    ensures Dict(Written(mode, c)) == map[MODE_KEY := mode, ID_KEY := c.id, SECRET_KEY := c.secret]
  {
    KeysDiffer();
    var u := Written(mode, c);
    assert u[1..] == [Assignment(ID_KEY, c.id), Assignment(SECRET_KEY, c.secret)];
    assert u[1..][1..] == [Assignment(SECRET_KEY, c.secret)];
    assert Dict(u[1..][1..]) == map[SECRET_KEY := c.secret] by { assert u[1..][1..][1..] == []; }
    assert Dict(u[1..]) == map[ID_KEY := c.id, SECRET_KEY := c.secret];
  }

  lemma GoodUpdates(settings: Updates, mode: string, c: Credentials)
    requires GoodSettings(settings) && Text.Trimmed(mode) && Stripped(c)
    ensures Good(settings + Written(mode, c))
  {
    KeysDiffer();
    var u := settings + Written(mode, c);
    forall i | 0 <= i < |u| ensures Clean(u[i]) {
      if i < |settings| { assert u[i] == settings[i]; }
    }
  }

  /** An environment file after a mode switch carries exactly the credentials written. */
  lemma EnvCarries(env: seq<string>, settings: Updates, mode: string, c: Credentials)
    requires GoodSettings(settings) && Text.Trimmed(mode) && Stripped(c)
    ensures CredentialsOf(Upserted(env, settings + Written(mode, c))) == c
  {
    GoodUpdates(settings, mode, c);
    UpsertReads(env, settings + Written(mode, c));
    DictConcat(settings, Written(mode, c));
    WrittenDict(mode, c);
    Text.TrimIdentity(c.id);
    Text.TrimIdentity(c.secret);
  }

  /** Without mode updates the credentials stay. */
  lemma EnvKeeps(env: seq<string>, settings: Updates)
    requires GoodSettings(settings)
    ensures CredentialsOf(Upserted(env, settings + [])) == CredentialsOf(env)
  {
    assert settings + [] == settings;
    UpsertReads(env, settings);
    DictKeys(settings, ID_KEY);
    DictKeys(settings, SECRET_KEY);
  }

  lemma RollbackCarries(c: Credentials)
    requires Stripped(c)
    ensures CredentialsOf(CredentialLines(c)) == c
  {
    KeysDiffer();
    var u := [Assignment(ID_KEY, c.id), Assignment(SECRET_KEY, c.secret)];
    ParsedLines(u);
    FoldTwo(u[0], u[1]);
    assert EntriesOf(u) == [Some(u[0]), Some(u[1])];
    Text.TrimIdentity(c.id);
    Text.TrimIdentity(c.secret);
  }

  lemma FoldTwo(a: Assignment, b: Assignment)
    ensures Fold([Some(a), Some(b)]) == map[a.key := a.value][b.key := b.value]
  {
    var e: Entries := [Some(a), Some(b)];
    assert e[..1] == [Some(a)];
    EntriesConcat(a, []);
  }

  /** The credentials in the two files after a run, in terms of those before. */
  lemma SwitchCredentials(f: Files, settings: Updates, mode: Mode, crash: bool)
    requires GoodSettings(settings) && !Refused(f, mode)
    ensures var g := Switched(f, settings, mode, crash);
            && CredentialsOf(g.env) == (if crash || mode.IdentityOnly? then CredentialsOf(f.env)
                                        else if mode.Gateway? then Credentials("", "") else Restorable(f))
            && RollbackCredentials(g) == (if mode.Gateway? && Complete(CredentialsOf(f.env)) then CredentialsOf(f.env)
                                          else RollbackCredentials(f))
  {
    assert Text.Trimmed("gateway") && Text.Trimmed("direct") && Text.Trimmed("");
    CredentialsStripped(Values(f.env));
    if mode.Gateway? && Complete(CredentialsOf(f.env)) { RollbackCarries(CredentialsOf(f.env)); }
    if !crash {
      match mode
      case Gateway =>
        assert ModeUpdates(f, mode) == Written("gateway", Credentials("", ""));
        EnvCarries(f.env, settings, "gateway", Credentials("", ""));
      case Direct =>
        if f.rollback.Some? { CredentialsStripped(Values(f.rollback.value)); }
        assert ModeUpdates(f, mode) == Written("direct", Restorable(f));
        EnvCarries(f.env, settings, "direct", Restorable(f));
      case IdentityOnly =>
        EnvKeeps(f.env, settings);
    }
  }

  lemma {:induction false} DictHolds(u: Updates, i: nat)
    requires Distinct(u) && i < |u|
    ensures u[i].key in Dict(u) && Dict(u)[u[i].key] == u[i].value
  {
    DistinctTail(u);
    if i > 0 { DictHolds(u[1..], i - 1); }
  }

  /** The settings are in the values, and keys outside `keys` and the settings are as before. */
  ghost predicate Carries(before: map<string, string>, after: map<string, string>, settings: Updates, keys: set<string>) {
    && (forall i :: 0 <= i < |settings| ==> settings[i].key in after && after[settings[i].key] == settings[i].value)
    && (forall k :: k !in keys && (forall i :: 0 <= i < |settings| ==> settings[i].key != k) ==>
          (k in after <==> k in before) && (k in before ==> after[k] == before[k]))
  }

  lemma OverlayCarries(before: map<string, string>, settings: Updates, written: map<string, string>)
    requires GoodSettings(settings) && written.Keys <= {MODE_KEY, ID_KEY, SECRET_KEY}
    ensures Carries(before, before + Dict(settings) + written, settings, written.Keys)
  {
    var after := before + Dict(settings) + written;
    forall i | 0 <= i < |settings| ensures settings[i].key in after && after[settings[i].key] == settings[i].value {
      DictHolds(settings, i);
      assert settings[i].key !in written;
    }
    forall k | k !in written.Keys && forall i :: 0 <= i < |settings| ==> settings[i].key != k
      ensures (k in after <==> k in before) && (k in before ==> after[k] == before[k])
    {
      DictKeys(settings, k);
    }
  }

  /** What a completed run leaves in the environment file: the mode, the settings, and all other keys as before. */
  lemma SwitchValues(f: Files, settings: Updates, mode: Mode)
    requires GoodSettings(settings) && !Refused(f, mode)
    ensures var before, after := Values(f.env), Values(Switched(f, settings, mode, false).env);
            && (mode == Gateway ==> Get(after, "SHOPEE_OPEN_API_MODE") == "gateway")
            && (mode == Direct ==> Get(after, "SHOPEE_OPEN_API_MODE") == "direct")
            && Carries(before, after, settings, if mode == IdentityOnly then {} else {MODE_KEY, ID_KEY, SECRET_KEY})
  {
    var written := AfterValues(f, settings, mode);
    OverlayCarries(Values(f.env), settings, written);
  }

  lemma AfterValues(f: Files, settings: Updates, mode: Mode) returns (written: map<string, string>)
    requires GoodSettings(settings)
    ensures Values(Upserted(f.env, settings + ModeUpdates(f, mode))) == Values(f.env) + Dict(settings) + written
    ensures written.Keys == if mode == IdentityOnly then {} else {MODE_KEY, ID_KEY, SECRET_KEY}
    ensures mode == Gateway ==> written[MODE_KEY] == "gateway"
    ensures mode == Direct ==> written[MODE_KEY] == "direct"
  {
    if mode == IdentityOnly {
      written := map[];
      assert settings + [] == settings;
      UpsertReads(f.env, settings);
    } else {
      var text, c := ModeWritten(f, mode);
      written := map[MODE_KEY := text, ID_KEY := c.id, SECRET_KEY := c.secret];
      KeysDiffer();
      WrittenValues(f.env, settings, text, c);
    }
  }

  lemma ModeWritten(f: Files, mode: Mode) returns (text: string, c: Credentials)
    requires mode != IdentityOnly
    ensures Text.Trimmed(text) && Stripped(c) && ModeUpdates(f, mode) == Written(text, c)
    ensures text == if mode == Gateway then "gateway" else "direct"
  {
    CredentialsStripped(Values(f.env));
    if f.rollback.Some? { CredentialsStripped(Values(f.rollback.value)); }
    text := if mode == Gateway then "gateway" else "direct";
    c := if mode == Gateway then Credentials("", "") else Restorable(f);
    assert Text.Trimmed("gateway") && Text.Trimmed("direct") && Text.Trimmed("");
  }

  lemma WrittenValues(env: seq<string>, settings: Updates, mode: string, c: Credentials)
    requires GoodSettings(settings) && Text.Trimmed(mode) && Stripped(c)
    ensures Values(Upserted(env, settings + Written(mode, c))) ==
            Values(env) + Dict(settings) + map[MODE_KEY := mode, ID_KEY := c.id, SECRET_KEY := c.secret]
  {
    GoodUpdates(settings, mode, c);
    UpsertReads(env, settings + Written(mode, c));
    DictConcat(settings, Written(mode, c));
    WrittenDict(mode, c);
  }

  /**
   * A run is refused exactly when gateway finds one credential without the other, or direct finds
   * neither file with both.
   */
  lemma RefusedExactly(f: Files, mode: Mode)
    ensures var env := Values(f.env);
            var id, secret := Text.Trim(Get(env, "SHOPEE_OPEN_API_PARTNER_ID")), Text.Trim(Get(env, "SHOPEE_OPEN_API_PARTNER_KEY"));
            var inRollback := f.rollback.Some? &&
                              Text.Trim(Get(Values(f.rollback.value), "SHOPEE_OPEN_API_PARTNER_ID")) != "" &&
                              Text.Trim(Get(Values(f.rollback.value), "SHOPEE_OPEN_API_PARTNER_KEY")) != "";
            && (mode == Gateway ==> (Refused(f, mode) <==> (id == "") != (secret == "")))
            && (mode == Direct ==> (Refused(f, mode) <==> !inRollback && (id == "" || secret == "")))
            && (mode == IdentityOnly ==> !Refused(f, mode))
  {
  }

  /** A refused run writes nothing. */
  lemma RefusedWritesNothing(f: Files, settings: Updates, mode: Mode, crash: bool)
    requires Refused(f, mode)
    ensures Switched(f, settings, mode, crash) == f
  {
  }

  // ----- runs -----

  datatype Switch = Switch(settings: Updates, mode: Mode, crash: bool)

  function RunAll(f: Files, switches: seq<Switch>): Files
    decreases |switches|
  {
    if switches == [] then f
    else RunAll(Switched(f, switches[0].settings, switches[0].mode, switches[0].crash), switches[1..])
  }

  predicate GoodRun(switches: seq<Switch>) {
    forall i :: 0 <= i < |switches| ==> GoodSettings(switches[i].settings)
  }

  /** Credentials `c` can be restored, and no other complete ones are active. */
  predicate Holds(f: Files, c: Credentials) {
    Complete(c) && Restorable(f) == c && (Complete(CredentialsOf(f.env)) ==> CredentialsOf(f.env) == c)
  }

  lemma {:induction false} HoldsForever(f: Files, switches: seq<Switch>, c: Credentials)
    requires GoodRun(switches) && Holds(f, c)
    ensures Holds(RunAll(f, switches), c)
    decreases |switches|
  {
    if switches != [] {
      var s := switches[0];
      var g := Switched(f, s.settings, s.mode, s.crash);
      if !Refused(f, s.mode) { SwitchCredentials(f, s.settings, s.mode, s.crash); }
      HoldsForever(g, switches[1..], c);
    }
  }

  /** Complete credentials are never lost: whatever was restorable stays restorable in some form. */
  lemma {:induction false} NeverLost(f: Files, switches: seq<Switch>)
    requires GoodRun(switches) && Complete(Restorable(f))
    ensures Complete(Restorable(RunAll(f, switches)))
    decreases |switches|
  {
    if switches != [] {
      var s := switches[0];
      if !Refused(f, s.mode) { SwitchCredentials(f, s.settings, s.mode, s.crash); }
      NeverLost(Switched(f, s.settings, s.mode, s.crash), switches[1..]);
    }
  }

  /** A switch to direct restores credentials `c` after every run. */
  ghost predicate AlwaysRestores(f: Files, c: Credentials) {
    forall switches, settings :: GoodRun(switches) && GoodSettings(settings) ==>
      CredentialsOf(Switched(RunAll(f, switches), settings, Direct, false).env) == c
  }

  /**
   * For a tenant with complete active credentials, a switch to direct restores exactly those after
   * every run if and only if the rollback file is absent, incomplete, or already holds them. A complete
   * rollback file left from older credentials is preferred, and overwrites the active ones.
   */
  lemma RestoresExactly(f: Files)
    requires Complete(CredentialsOf(f.env))
    ensures AlwaysRestores(f, CredentialsOf(f.env)) <==>
            !Complete(RollbackCredentials(f)) || RollbackCredentials(f) == CredentialsOf(f.env)
  {
    var c := CredentialsOf(f.env);
    if !Complete(RollbackCredentials(f)) || RollbackCredentials(f) == c {
      forall switches, settings | GoodRun(switches) && GoodSettings(settings)
        ensures CredentialsOf(Switched(RunAll(f, switches), settings, Direct, false).env) == c
      {
        HoldsForever(f, switches, c);
        SwitchCredentials(RunAll(f, switches), settings, Direct, false);
      }
    } else {
      assert RunAll(f, []) == f && GoodRun([]) && GoodSettings([]);
      SwitchCredentials(f, [], Direct, false);
      assert CredentialsOf(Switched(RunAll(f, []), [], Direct, false).env) != c;
    }
  }
}
