/** Batch product resolution: the precomputed index of an import against the rule for one item. */
module Resolver {
  import opened Wrappers
  import opened Permutations

  /** A marketplace item as the resolver sees it: trimmed identifiers, normalised SKU and name. */
  datatype Ref = Ref(account: string, itemId: string, variantId: string, sku: string, rawName: string, name: string)

  /** The index keys; the code joins the parts with NUL characters. */
  datatype Key =
    | Identity(account: string, itemId: string, variantId: string)
    | Variant(account: string, variantId: string)
    | Sku(account: string, sku: string)
    | Name(account: string, name: string)
    | Legacy(sku: string, rawName: string)

  datatype Alias = Alias(
    id: string, account: string, itemId: string, variantId: string, sku: string, name: string,
    itemCode: string, unitCode: string, active: bool,
    multiplier: int, stand: Option<real>, divide: Option<real>, generation: Option<string>,
    status: string, salesEnabled: bool, revision: int)

  function Find<K, V>(m: map<K, V>, k: K): Option<V> {
    if k in m then Some(m[k]) else None
  }

  // ----- aliases by key -----

  /** The keys under which a loaded alias is filed. */
  function AliasKeys(a: Alias, tiktok: bool): set<Key> {
    (if a.itemId != "" then {Identity(a.account, a.itemId, a.variantId)} else {}) +
    (if tiktok && a.itemId == "" && a.variantId != "" then {Variant(a.account, a.variantId)} else {}) +
    (if a.sku != "" then {Sku(a.account, a.sku)} else {}) +
    (if a.sku == "" && a.itemId == "" then {Name(a.account, a.name)} else {})
  }

  /** Every key leads to an alias of the same account that carries the key. */
  predicate AliasesFiled(byKey: map<Key, Alias>, aliases: seq<Alias>, tiktok: bool) {
    && (forall k :: k in byKey ==> byKey[k] in aliases && k in AliasKeys(byKey[k], tiktok))
    && (forall a, k :: a in aliases && k in AliasKeys(a, tiktok) ==> k in byKey)
  }

  /** The row filed under a key is the last one carrying it. */
  ghost predicate LastFiled(byKey: map<Key, Alias>, aliases: seq<Alias>, tiktok: bool) {
    LastBy(byKey, aliases, a => AliasKeys(a, tiktok))
  }

  predicate LastWith(aliases: seq<Alias>, keys: Alias -> set<Key>, k: Key, i: int) {
    0 <= i < |aliases| && k in keys(aliases[i]) && forall j :: i < j < |aliases| ==> k !in keys(aliases[j])
  }

  ghost predicate LastBy(byKey: map<Key, Alias>, aliases: seq<Alias>, keys: Alias -> set<Key>) {
    forall k :: k in byKey ==> exists i :: LastWith(aliases, keys, k, i) && aliases[i] == byKey[k]
  }

  lemma LastByOnTop(was: map<Key, Alias>, byKey: map<Key, Alias>, aliases: seq<Alias>, a: Alias, keys: Alias -> set<Key>)
    requires LastBy(was, aliases, keys)
    requires forall k :: k in byKey ==> (k in was || k in keys(a)) && byKey[k] == if k in keys(a) then a else was[k]
    ensures LastBy(byKey, aliases + [a], keys)
  {
    var all := aliases + [a];
    forall k | k in byKey ensures exists i :: LastWith(all, keys, k, i) && all[i] == byKey[k] {
      if k in keys(a) {
        assert LastWith(all, keys, k, |aliases|);
      } else {
        var i :| LastWith(aliases, keys, k, i) && aliases[i] == was[k];
        assert LastWith(all, keys, k, i);
      }
    }
  }

  predicate OnTop(was: map<Key, Alias>, byKey: map<Key, Alias>, a: Alias, tiktok: bool) {
    && (forall k :: k in byKey ==> (k in was || k in AliasKeys(a, tiktok)) && byKey[k] == if k in AliasKeys(a, tiktok) then a else was[k])
    && (forall k :: k in was ==> k in byKey) && (forall k :: k in AliasKeys(a, tiktok) ==> k in byKey)
  }

  lemma FiledOnTop(was: map<Key, Alias>, byKey: map<Key, Alias>, aliases: seq<Alias>, a: Alias, tiktok: bool)
    requires AliasesFiled(was, aliases, tiktok) && OnTop(was, byKey, a, tiktok)
    ensures AliasesFiled(byKey, aliases + [a], tiktok)
  {
  }

  /** One row, put under each of its keys. */
  method FileAlias(was: map<Key, Alias>, a: Alias, tiktok: bool) returns (byKey: map<Key, Alias>)
    ensures OnTop(was, byKey, a, tiktok)
  {
    byKey := was;
    if a.itemId != "" { byKey := byKey[Identity(a.account, a.itemId, a.variantId) := a]; }
    if tiktok && a.itemId == "" && a.variantId != "" { byKey := byKey[Variant(a.account, a.variantId) := a]; }
    if a.sku != "" { byKey := byKey[Sku(a.account, a.sku) := a]; }
    if a.sku == "" && a.itemId == "" { byKey := byKey[Name(a.account, a.name) := a]; }
  }

  /** The loaded rows, filed in the order the database returned them; a later row replaces an earlier one. */
  method FileAliases(aliases: seq<Alias>, tiktok: bool) returns (byKey: map<Key, Alias>)
    ensures AliasesFiled(byKey, aliases, tiktok) && LastFiled(byKey, aliases, tiktok)
  {
    byKey := map[];
    for i := 0 to |aliases|
      invariant AliasesFiled(byKey, aliases[..i], tiktok) && LastFiled(byKey, aliases[..i], tiktok)
    {
      var filed := FileAlias(byKey, aliases[i], tiktok);
      FiledOnTop(byKey, filed, aliases[..i], aliases[i], tiktok);
      LastByOnTop(byKey, filed, aliases[..i], aliases[i], a => AliasKeys(a, tiktok));
      assert aliases[..i + 1] == aliases[..i] + [aliases[i]];
      byKey := filed;
    }
    assert aliases[..|aliases|] == aliases;
  }

  // ----- the rule for one item -----

  function ByVariant(r: Ref, byKey: map<Key, Alias>, tiktok: bool): Option<Alias> {
    var direct := Find(byKey, Variant(r.account, r.variantId));
    if direct.None? && tiktok then Find(byKey, Sku(r.account, r.variantId)) else direct
  }

  function Candidate(r: Ref, byKey: map<Key, Alias>, tiktok: bool): Option<Alias> {
    var first := if r.itemId != "" then Find(byKey, Identity(r.account, r.itemId, r.variantId))
                 else if r.variantId != "" then ByVariant(r, byKey, tiktok) else None;
    var second := if first.None? && r.sku != "" then Find(byKey, Sku(r.account, r.sku)) else first;
    if second.None? && r.sku == "" && r.itemId == "" then Find(byKey, Name(r.account, r.name)) else second
  }

  /** The alias one item resolves to by itself: the candidate, if its target may go into a document. */
  function Direct(r: Ref, byKey: map<Key, Alias>, tiktok: bool, ready: set<string>): Option<Alias> {
    var a := Candidate(r, byKey, tiktok);
    if a.Some? && a.value.itemCode in ready then a else None
  }

  /** What is stored for a key: the alias and the legacy name mapping kept as a hint. */
  datatype Resolution = Resolution(alias: Option<Alias>, learned: Option<string>)

  function Resolve(r: Ref, byKey: map<Key, Alias>, tiktok: bool, ready: set<string>, learned: map<string, string>): Resolution {
    Resolution(Direct(r, byKey, tiktok, ready), if r.sku == "" then Find(learned, r.name) else None)
  }

  // ----- what the rule looks for, written on the loaded rows -----

  predicate SameIdentity(a: Alias, r: Ref) {
    r.itemId != "" && a.account == r.account && a.itemId == r.itemId && a.variantId == r.variantId
  }

  /** A row for the variant alone; such rows are only looked for in TikTok imports. */
  predicate SameVariant(a: Alias, r: Ref, tiktok: bool) {
    tiktok && r.itemId == "" && r.variantId != "" && a.account == r.account && a.itemId == "" && a.variantId == r.variantId
  }

  /** An older TikTok row that has the variant for its SKU. */
  predicate VariantAsSku(a: Alias, r: Ref, tiktok: bool) {
    tiktok && r.itemId == "" && r.variantId != "" && a.account == r.account && a.sku == r.variantId
  }

  predicate SameSku(a: Alias, r: Ref) {
    r.sku != "" && a.account == r.account && a.sku == r.sku
  }

  /** Names count only where neither side has an identity or an SKU. */
  predicate SameName(a: Alias, r: Ref) {
    r.sku == "" && r.itemId == "" && a.account == r.account && a.sku == "" && a.itemId == "" && a.name == r.name
  }

  /** A search that finds a matching row of the list if there is one. */
  predicate Finds(found: Option<Alias>, aliases: seq<Alias>, matches: Alias -> bool) {
    if found.Some? then found.value in aliases && matches(found.value) else forall a :: a in aliases ==> !matches(a)
  }

  lemma FindsIdentity(aliases: seq<Alias>, byKey: map<Key, Alias>, tiktok: bool, r: Ref)
    requires AliasesFiled(byKey, aliases, tiktok) && r.itemId != ""
    ensures Finds(Find(byKey, Identity(r.account, r.itemId, r.variantId)), aliases, a => SameIdentity(a, r))
  {
    forall a ensures SameIdentity(a, r) <==> Identity(r.account, r.itemId, r.variantId) in AliasKeys(a, tiktok) {}
  }

  lemma FindsVariant(aliases: seq<Alias>, byKey: map<Key, Alias>, tiktok: bool, r: Ref)
    requires AliasesFiled(byKey, aliases, tiktok) && r.itemId == "" && r.variantId != ""
    ensures Finds(Find(byKey, Variant(r.account, r.variantId)), aliases, a => SameVariant(a, r, tiktok))
    ensures tiktok ==> Finds(Find(byKey, Sku(r.account, r.variantId)), aliases, a => VariantAsSku(a, r, tiktok))
  {
    forall a ensures SameVariant(a, r, tiktok) <==> Variant(r.account, r.variantId) in AliasKeys(a, tiktok) {}
    forall a ensures VariantAsSku(a, r, tiktok) <==> tiktok && Sku(r.account, r.variantId) in AliasKeys(a, tiktok) {}
  }

  lemma FindsSkuOrName(aliases: seq<Alias>, byKey: map<Key, Alias>, tiktok: bool, r: Ref)
    requires AliasesFiled(byKey, aliases, tiktok)
    ensures r.sku != "" ==> Finds(Find(byKey, Sku(r.account, r.sku)), aliases, a => SameSku(a, r))
    ensures r.sku == "" && r.itemId == "" ==> Finds(Find(byKey, Name(r.account, r.name)), aliases, a => SameName(a, r))
  {
    forall a ensures SameSku(a, r) <==> r.sku != "" && Sku(r.account, r.sku) in AliasKeys(a, tiktok) {}
    forall a ensures SameName(a, r) <==> r.sku == "" && r.itemId == "" && Name(r.account, r.name) in AliasKeys(a, tiktok) {}
  }

  /** By SKU, or without one by name. */
  predicate SkuElseName(c: Option<Alias>, aliases: seq<Alias>, r: Ref) {
    if exists a :: a in aliases && SameSku(a, r) then c.Some? && SameSku(c.value, r)
    else if exists a :: a in aliases && SameName(a, r) then c.Some? && SameName(c.value, r)
    else c.None?
  }

  lemma TailExactly(aliases: seq<Alias>, byKey: map<Key, Alias>, tiktok: bool, r: Ref, c: Option<Alias>)
    requires AliasesFiled(byKey, aliases, tiktok)
    requires c == if r.sku != "" then Find(byKey, Sku(r.account, r.sku))
                  else if r.itemId == "" then Find(byKey, Name(r.account, r.name)) else None
    ensures SkuElseName(c, aliases, r) && (c.Some? ==> c.value in aliases)
  {
    FindsSkuOrName(aliases, byKey, tiktok, r);
  }

  /** A row of the item's account by identity, else variant, else SKU, else name, if there is one. */
  predicate RuleGives(c: Option<Alias>, aliases: seq<Alias>, r: Ref, tiktok: bool) {
    if exists a :: a in aliases && SameIdentity(a, r) then c.Some? && SameIdentity(c.value, r)
    else if exists a :: a in aliases && SameVariant(a, r, tiktok) then c.Some? && SameVariant(c.value, r, tiktok)
    else if exists a :: a in aliases && VariantAsSku(a, r, tiktok) then c.Some? && VariantAsSku(c.value, r, tiktok)
    else SkuElseName(c, aliases, r)
  }

  lemma RuleByIdentity(aliases: seq<Alias>, found: Option<Alias>, tail: Option<Alias>, r: Ref, tiktok: bool)
    requires r.itemId != "" && Finds(found, aliases, a => SameIdentity(a, r)) && SkuElseName(tail, aliases, r)
    ensures RuleGives(if found.Some? then found else tail, aliases, r, tiktok)
  {
  }

  lemma RuleByVariant(aliases: seq<Alias>, found: Option<Alias>, asSku: Option<Alias>, tail: Option<Alias>, r: Ref, tiktok: bool)
    requires r.itemId == "" && r.variantId != ""
    requires Finds(found, aliases, a => SameVariant(a, r, tiktok)) && SkuElseName(tail, aliases, r)
    requires if tiktok then Finds(asSku, aliases, a => VariantAsSku(a, r, tiktok)) else asSku.None?
    ensures RuleGives(if found.Some? then found else if asSku.Some? then asSku else tail, aliases, r, tiktok)
  {
  }

  /** That is what the rule takes. */
  lemma RuleExactly(aliases: seq<Alias>, byKey: map<Key, Alias>, tiktok: bool, r: Ref)
    requires AliasesFiled(byKey, aliases, tiktok)
    ensures var c := Candidate(r, byKey, tiktok); RuleGives(c, aliases, r, tiktok) && (c.Some? ==> c.value in aliases)
  {
    var tail := if r.sku != "" then Find(byKey, Sku(r.account, r.sku))
                else if r.itemId == "" then Find(byKey, Name(r.account, r.name)) else None;
    TailExactly(aliases, byKey, tiktok, r, tail);
    if r.itemId != "" {
      FindsIdentity(aliases, byKey, tiktok, r);
      RuleByIdentity(aliases, Find(byKey, Identity(r.account, r.itemId, r.variantId)), tail, r, tiktok);
    } else if r.variantId != "" {
      FindsVariant(aliases, byKey, tiktok, r);
      RuleByVariant(aliases, Find(byKey, Variant(r.account, r.variantId)),
                    if tiktok then Find(byKey, Sku(r.account, r.variantId)) else None, tail, r, tiktok);
    }
  }

  // ----- the batch index -----

  datatype Batch = Batch(refs: seq<Ref>, byKey: map<Key, Alias>, tiktok: bool, ready: set<string>, learned: map<string, string>)

  function ResolveIn(b: Batch, r: Ref): Resolution {
    Resolve(r, b.byKey, b.tiktok, b.ready, b.learned)
  }

  /** An alias counts only if its target is ready; the learned name is kept for items without an SKU, alias or not. */
  lemma ResolvedExactly(b: Batch, r: Ref)
    ensures var found, out := Candidate(r, b.byKey, b.tiktok), ResolveIn(b, r);
            && (out.alias.Some? <==> found.Some? && found.value.itemCode in b.ready) && (out.alias.Some? ==> out.alias == found)
            && (out.learned.Some? <==> r.sku == "" && r.name in b.learned)
            && (out.learned.Some? ==> out.learned.value == b.learned[r.name])
  {
  }

  function IndexKeys(r: Ref): set<Key> {
    (if r.itemId != "" then {Identity(r.account, r.itemId, r.variantId)} else {}) +
    (if r.itemId == "" && r.variantId != "" then {Variant(r.account, r.variantId)} else {}) +
    (if r.sku != "" then {Sku(r.account, r.sku)} else {}) +
    {Name(r.account, r.name), Legacy(r.sku, r.rawName)}
  }

  /** The last item of the batch that writes a key. */
  function Writer(refs: seq<Ref>, k: Key): Option<Ref> {
    if refs == [] then None
    else if k in IndexKeys(refs[|refs| - 1]) then Some(refs[|refs| - 1])
    else Writer(refs[..|refs| - 1], k)
  }

  ghost predicate IndexOf(index: map<Key, Resolution>, b: Batch, refs: seq<Ref>) {
    forall k :: if Writer(refs, k).Some? then k in index && index[k] == ResolveIn(b, Writer(refs, k).value) else k !in index
  }

  method PrepareIndex(b: Batch) returns (index: map<Key, Resolution>)
    ensures IndexOf(index, b, b.refs)
  {
    index := map[];
    for i := 0 to |b.refs|
      invariant IndexOf(index, b, b.refs[..i])
    {
      var r := b.refs[i];
      var was := index;
      var alias := None;
      if r.itemId != "" { alias := Find(b.byKey, Identity(r.account, r.itemId, r.variantId)); }
      if alias.None? && r.itemId == "" && r.variantId != "" {
        alias := Find(b.byKey, Variant(r.account, r.variantId));
        if alias.None? && b.tiktok { alias := Find(b.byKey, Sku(r.account, r.variantId)); }
      }
      if alias.None? && r.sku != "" { alias := Find(b.byKey, Sku(r.account, r.sku)); }
      if alias.None? && r.sku == "" && r.itemId == "" { alias := Find(b.byKey, Name(r.account, r.name)); }
      if alias.Some? && alias.value.itemCode !in b.ready { alias := None; }
      var resolved := Resolution(alias, if r.sku == "" then Find(b.learned, r.name) else None);
      if r.itemId != "" { index := index[Identity(r.account, r.itemId, r.variantId) := resolved]; }
      if r.itemId == "" && r.variantId != "" { index := index[Variant(r.account, r.variantId) := resolved]; }
      if r.sku != "" { index := index[Sku(r.account, r.sku) := resolved]; }
      index := index[Name(r.account, r.name) := resolved][Legacy(r.sku, r.rawName) := resolved];
      Written(b, i, was, index, resolved);
    }
    assert b.refs[..|b.refs|] == b.refs;
  }

  lemma Written(b: Batch, i: nat, was: map<Key, Resolution>, index: map<Key, Resolution>, resolved: Resolution)
    requires i < |b.refs| && IndexOf(was, b, b.refs[..i]) && resolved == ResolveIn(b, b.refs[i])
    requires forall k :: k in IndexKeys(b.refs[i]) ==> k in index && index[k] == resolved
    requires forall k :: k !in IndexKeys(b.refs[i]) ==> (k in index <==> k in was) && (k in was ==> index[k] == was[k])
    ensures IndexOf(index, b, b.refs[..i + 1])
  {
    assert b.refs[..i + 1][..i] == b.refs[..i];
  }

  /** Looks an item up: identity, variant and SKU entries count only with an alias, the name entry as it is. */
  function ResolutionScoped(index: map<Key, Resolution>, r: Ref): Resolution {
    var identity, variant, sku, name :=
      Find(index, Identity(r.account, r.itemId, r.variantId)), Find(index, Variant(r.account, r.variantId)),
      Find(index, Sku(r.account, r.sku)), Find(index, Name(r.account, r.name));
    if r.itemId != "" && identity.Some? && identity.value.alias.Some? then identity.value
    else if r.itemId == "" && r.variantId != "" && variant.Some? && variant.value.alias.Some? then variant.value
    else if r.sku != "" && sku.Some? && sku.value.alias.Some? then sku.value
    else if name.Some? then name.value
    else
      var legacy := Find(index, Legacy(r.sku, r.rawName));
      if legacy.Some? then legacy.value else Resolution(None, None)
  }

  // ----- agreement -----

  /** Two items write, and so may overwrite, a common account-scoped entry. */
  predicate Share(r: Ref, q: Ref) {
    exists k :: k in IndexKeys(r) && k in IndexKeys(q) && !k.Legacy?
  }

  lemma {:induction false} WriterExists(refs: seq<Ref>, r: Ref, k: Key)
    requires r in refs && k in IndexKeys(r)
    ensures Writer(refs, k).Some?
  {
    var n := |refs| - 1;
    if k !in IndexKeys(refs[n]) {
      assert r in refs[..n];
      WriterExists(refs[..n], r, k);
    }
  }

  lemma {:induction false} WriterIsOne(refs: seq<Ref>, k: Key)
    ensures Writer(refs, k).Some? ==> Writer(refs, k).value in refs && k in IndexKeys(Writer(refs, k).value)
  {
    if refs != [] && k !in IndexKeys(refs[|refs| - 1]) {
      WriterIsOne(refs[..|refs| - 1], k);
    }
  }

  lemma WriterShares(refs: seq<Ref>, r: Ref, k: Key)
    requires r in refs && k in IndexKeys(r) && !k.Legacy?
    ensures Writer(refs, k).Some? && Writer(refs, k).value in refs && Share(r, Writer(refs, k).value)
  {
    WriterExists(refs, r, k);
    WriterIsOne(refs, k);
  }

  /**
   * When all items of the batch that share an entry with an item resolve by themselves to the
   * same alias, or all to none, the index returns for it exactly what the rule does.
   */
  lemma IndexAgrees(b: Batch, index: map<Key, Resolution>, r: Ref)
    requires IndexOf(index, b, b.refs) && r in b.refs
    requires forall q :: q in b.refs && Share(r, q) ==> ResolveIn(b, q).alias == ResolveIn(b, r).alias
    ensures ResolutionScoped(index, r).alias == ResolveIn(b, r).alias
  {
    forall k | k in IndexKeys(r) && !k.Legacy?
      ensures k in index && index[k].alias == ResolveIn(b, r).alias
    {
      WriterShares(b.refs, r, k);
    }
    assert Name(r.account, r.name) in IndexKeys(r);
    assert r.itemId != "" ==> Identity(r.account, r.itemId, r.variantId) in IndexKeys(r);
    assert r.itemId == "" && r.variantId != "" ==> Variant(r.account, r.variantId) in IndexKeys(r);
    assert r.sku != "" ==> Sku(r.account, r.sku) in IndexKeys(r);
  }

  predicate Entry(index: map<Key, Resolution>, k: Key, out: Resolution) {
    k in index && index[k] == out
  }

  /** A batch item never falls through to the entry that is not scoped to an account. */
  lemma LookupEntry(b: Batch, index: map<Key, Resolution>, r: Ref)
    requires IndexOf(index, b, b.refs) && r in b.refs
    ensures exists k :: k in IndexKeys(r) && !k.Legacy? && Entry(index, k, ResolutionScoped(index, r))
  {
    var out := ResolutionScoped(index, r);
    var name := Name(r.account, r.name);
    WriterShares(b.refs, r, name);
    var identity, variant, sku := Identity(r.account, r.itemId, r.variantId), Variant(r.account, r.variantId), Sku(r.account, r.sku);
    assert Entry(index, name, out) || (r.sku != "" && Entry(index, sku, out))
           || (r.itemId != "" && Entry(index, identity, out))
           || (r.itemId == "" && r.variantId != "" && Entry(index, variant, out));
  }

  lemma CandidateScoped(r: Ref, aliases: seq<Alias>, byKey: map<Key, Alias>, tiktok: bool)
    requires AliasesFiled(byKey, aliases, tiktok) && Candidate(r, byKey, tiktok).Some?
    ensures Candidate(r, byKey, tiktok).value in aliases && Candidate(r, byKey, tiktok).value.account == r.account
  {
  }

  lemma KeyAccount(r: Ref, k: Key)
    requires k in IndexKeys(r) && !k.Legacy?
    ensures k.account == r.account
  {
  }

  /**
   * Without any such hypothesis the index still returns only a document-ready alias of the item's
   * own account that some batch item sharing an entry with it resolves to.
   */
  lemma IndexSafe(b: Batch, aliases: seq<Alias>, index: map<Key, Resolution>, r: Ref)
    requires IndexOf(index, b, b.refs) && r in b.refs && AliasesFiled(b.byKey, aliases, b.tiktok)
    ensures var out := ResolutionScoped(index, r);
            out.alias.Some? ==>
              && out.alias.value in aliases && out.alias.value.account == r.account && out.alias.value.itemCode in b.ready
              && exists q :: q in b.refs && Share(r, q) && q.account == r.account && ResolveIn(b, q).alias == out.alias
  {
    var out := ResolutionScoped(index, r);
    LookupEntry(b, index, r);
    var k :| k in IndexKeys(r) && !k.Legacy? && Entry(index, k, out);
    WriterShares(b.refs, r, k);
    var q := Writer(b.refs, k).value;
    WriterIsOne(b.refs, k);
    KeyAccount(r, k);
    KeyAccount(q, k);
    if out.alias.Some? { CandidateScoped(q, aliases, b.byKey, b.tiktok); }
  }

  predicate Resolves(index: map<Key, Resolution>, k: Key) {
    k in index && index[k].alias.Some?
  }

  /** No account-scoped entry answers for the item. */
  predicate NothingScoped(index: map<Key, Resolution>, r: Ref) {
    && Name(r.account, r.name) !in index
    && !(r.itemId != "" && Resolves(index, Identity(r.account, r.itemId, r.variantId)))
    && !(r.itemId == "" && r.variantId != "" && Resolves(index, Variant(r.account, r.variantId)))
    && !(r.sku != "" && Resolves(index, Sku(r.account, r.sku)))
  }

  /** The lookup with another resolution in the entry that is not scoped to an account. */
  function WithLegacy(index: map<Key, Resolution>, r: Ref, x: Resolution): Resolution {
    ResolutionScoped(index[Legacy(r.sku, r.rawName) := x], r)
  }

  lemma LegacyAnswers(index: map<Key, Resolution>, r: Ref, x: Resolution)
    ensures WithLegacy(index, r, x) == if NothingScoped(index, r) then x else ResolutionScoped(index, r)
  {
    var changed := index[Legacy(r.sku, r.rawName) := x];
    assert forall k: Key :: !k.Legacy? ==> Find(changed, k) == Find(index, k);
  }

  /**
   * The entry that is not scoped to an account decides a lookup exactly when no scoped entry answers,
   * which never happens to an item of the batch.
   */
  lemma LegacyDecidesExactly(b: Batch, index: map<Key, Resolution>, r: Ref)
    requires IndexOf(index, b, b.refs)
    ensures (exists x, y :: WithLegacy(index, r, x) != WithLegacy(index, r, y)) <==> NothingScoped(index, r)
    ensures r in b.refs ==> !NothingScoped(index, r)
  {
    forall x ensures WithLegacy(index, r, x) == if NothingScoped(index, r) then x else ResolutionScoped(index, r) {
      LegacyAnswers(index, r, x);
    }
    if NothingScoped(index, r) {
      assert WithLegacy(index, r, Resolution(None, None)) != WithLegacy(index, r, Resolution(None, Some("")));
    }
    if r in b.refs { WriterShares(b.refs, r, Name(r.account, r.name)); }
  }

  /**
   * In a batch of one aliased item, a lookup gives that alias exactly to the items of the account that
   * share its identity, its bare variant, its SKU or its name, or that repeat its SKU and raw name.
   */
  lemma LoneBatchExactly(b: Batch, index: map<Key, Resolution>, r: Ref, q: Ref)
    requires b.refs == [r] && IndexOf(index, b, b.refs) && ResolveIn(b, r).alias.Some?
    ensures ResolutionScoped(index, q) == (if ResolutionScoped(index, q).alias.Some? then ResolveIn(b, r) else Resolution(None, None))
    ensures ResolutionScoped(index, q).alias.Some? <==>
            || (q.sku == r.sku && q.rawName == r.rawName)
            || (q.account == r.account
                && (|| (q.itemId != "" && q.itemId == r.itemId && q.variantId == r.variantId)
                    || (q.itemId == "" && r.itemId == "" && q.variantId != "" && q.variantId == r.variantId)
                    || (q.sku != "" && q.sku == r.sku)
                    || q.name == r.name))
  {
    forall k ensures if k in IndexKeys(r) then k in index && index[k] == ResolveIn(b, r) else k !in index {
      assert [r][|[r]| - 1] == r && Writer([r], k) == (if k in IndexKeys(r) then Some(r) else None);
    }
  }

  // ----- exactly when the index agrees -----

  /** The item-specific entry, looked at first. */
  function FirstKey(r: Ref): Option<Key> {
    if r.itemId != "" then Some(Identity(r.account, r.itemId, r.variantId))
    else if r.variantId != "" then Some(Variant(r.account, r.variantId))
    else None
  }

  function SkuKey(r: Ref): Option<Key> {
    if r.sku != "" then Some(Sku(r.account, r.sku)) else None
  }

  function NameKey(r: Ref): Key {
    Name(r.account, r.name)
  }

  /** What the last item writing a key resolves to. */
  function ByWriter(b: Batch, refs: seq<Ref>, k: Option<Key>): Option<Alias> {
    if k.None? || Writer(refs, k.value).None? then None else ResolveIn(b, Writer(refs, k.value).value).alias
  }

  function LookedUp(b: Batch, refs: seq<Ref>, r: Ref): Option<Alias> {
    var first, sku := ByWriter(b, refs, FirstKey(r)), ByWriter(b, refs, SkuKey(r));
    if first.Some? then first else if sku.Some? then sku else ByWriter(b, refs, Some(NameKey(r)))
  }

  /** A lookup gives the alias of the last writer of the first entry whose last writer has one. */
  lemma LookupExactly(b: Batch, index: map<Key, Resolution>, refs: seq<Ref>, r: Ref)
    requires IndexOf(index, b, refs) && r in refs
    ensures ResolutionScoped(index, r).alias == LookedUp(b, refs, r)
  {
    WriterExists(refs, r, NameKey(r));
    if FirstKey(r).Some? { WriterExists(refs, r, FirstKey(r).value); }
    if SkuKey(r).Some? { WriterExists(refs, r, SkuKey(r).value); }
  }

  lemma AccountKeys(r: Ref, k: Key)
    ensures k in IndexKeys(r) && !k.Legacy? <==> Some(k) == FirstKey(r) || Some(k) == SkuKey(r) || k == NameKey(r)
  {
  }

  /** An item without an alias of its own stays without one exactly when the last writer of each of its entries has none. */
  lemma UnaliasedExactly(b: Batch, index: map<Key, Resolution>, r: Ref)
    requires IndexOf(index, b, b.refs) && r in b.refs && ResolveIn(b, r).alias.None?
    ensures ResolutionScoped(index, r).alias.None? <==>
            forall k :: k in IndexKeys(r) && !k.Legacy? ==> ByWriter(b, b.refs, Some(k)).None?
  {
    LookupExactly(b, index, b.refs, r);
    forall k ensures k in IndexKeys(r) && !k.Legacy? <==> Some(k) == FirstKey(r) || Some(k) == SkuKey(r) || k == NameKey(r) {
      AccountKeys(r, k);
    }
    assert FirstKey(r).Some? ==> FirstKey(r).value in IndexKeys(r);
    assert SkuKey(r).Some? ==> SkuKey(r).value in IndexKeys(r);
    assert NameKey(r) in IndexKeys(r);
  }

  /** Some item of the batch writes the key and resolves to another alias than `own`. */
  predicate Rival(b: Batch, k: Key, own: Option<Alias>) {
    exists q :: q in b.refs && k in IndexKeys(q) && ResolveIn(b, q).alias.Some? && ResolveIn(b, q).alias != own
  }

  /** There is no such key, or some item of the batch writes it and resolves to nothing. */
  predicate MayBeSilent(b: Batch, k: Option<Key>) {
    k.Some? ==> exists q :: q in b.refs && k.value in IndexKeys(q) && ResolveIn(b, q).alias.None?
  }

  predicate Disagrees(b: Batch, k: Key, own: Option<Alias>) {
    exists q :: q in b.refs && k in IndexKeys(q) && ResolveIn(b, q).alias != own
  }

  /** The item can lose its own resolution: an entry with a rival comes after entries that can all be silent. */
  predicate Overridable(b: Batch, r: Ref) {
    var own, first, sku := ResolveIn(b, r).alias, FirstKey(r), SkuKey(r);
    || (first.Some? && Rival(b, first.value, own))
    || (MayBeSilent(b, first) && sku.Some? && Rival(b, sku.value, own))
    || (MayBeSilent(b, first) && MayBeSilent(b, sku) && Disagrees(b, NameKey(r), own))
  }

  /** Whatever order the items of the batch come in, the index gives the item its own resolution. */
  ghost predicate AgreesInAnyOrder(b: Batch, r: Ref) {
    forall refs, index :: multiset(refs) == multiset(b.refs) && IndexOf(index, b, refs) ==>
      ResolutionScoped(index, r).alias == ResolveIn(b, r).alias
  }

  function AllKeys(refs: seq<Ref>): set<Key> {
    if refs == [] then {} else AllKeys(refs[..|refs| - 1]) + IndexKeys(refs[|refs| - 1])
  }

  lemma {:induction false} AllKeysWritten(refs: seq<Ref>, k: Key)
    ensures k in AllKeys(refs) <==> Writer(refs, k).Some?
  {
    if refs != [] { AllKeysWritten(refs[..|refs| - 1], k); }
  }

  lemma IndexExists(b: Batch, refs: seq<Ref>) returns (index: map<Key, Resolution>)
    ensures IndexOf(index, b, refs)
  {
    forall k ensures k in AllKeys(refs) <==> Writer(refs, k).Some? { AllKeysWritten(refs, k); }
    index := map k | k in AllKeys(refs) :: ResolveIn(b, Writer(refs, k).value);
  }

  /** The batch with one occurrence of an item moved to the end. */
  lemma MovedLast(refs: seq<Ref>, q: Ref) returns (moved: seq<Ref>)
    requires q in refs
    ensures multiset(moved) == multiset(refs)
    ensures forall k :: Writer(moved, k) == if k in IndexKeys(q) then Some(q) else Writer(refs, k)
  {
    var i :| 0 <= i < |refs| && refs[i] == q;
    var front, back := refs[..i], refs[i + 1..];
    assert refs == front + [q] + back;
    moved := front + back + [q];
    forall k ensures Writer(moved, k) == if k in IndexKeys(q) then Some(q) else Writer(refs, k) {
      MovedWriter(front, q, back, k);
    }
  }

  lemma {:induction false} WriterConcat(a: seq<Ref>, b: seq<Ref>, k: Key)
    ensures Writer(a + b, k) == if Writer(b, k).Some? then Writer(b, k) else Writer(a, k)
  {
    if b == [] {
      assert a + b == a;
    } else {
      assert (a + b)[..|a + b| - 1] == a + b[..|b| - 1];
      WriterConcat(a, b[..|b| - 1], k);
    }
  }

  lemma WriterOne(q: Ref, k: Key)
    ensures Writer([q], k) == if k in IndexKeys(q) then Some(q) else None
  {
    assert [q][..0] == [];
  }

  lemma MovedWriter(front: seq<Ref>, q: Ref, back: seq<Ref>, k: Key)
    ensures Writer(front + back + [q], k) == if k in IndexKeys(q) then Some(q) else Writer(front + [q] + back, k)
  {
    WriterOne(q, k);
    WriterConcat(front + back, [q], k);
    WriterConcat(front, back, k);
    WriterConcat(front + [q], back, k);
    WriterConcat(front, [q], k);
  }

  /** A rule's answer comes from the item's own identity or variant, or that key says nothing at all. */
  lemma FirstKeyShared(b: Batch, r: Ref, q: Ref)
    requires FirstKey(r).Some? && FirstKey(r).value in IndexKeys(q)
    requires ResolveIn(b, r).alias.Some? && ResolveIn(b, q).alias.None?
    ensures r.sku != "" ==> q.sku != r.sku
    ensures r.sku == "" ==> r.itemId == ""
  {
  }

  lemma SilentWriter(b: Batch, k: Option<Key>) returns (q: Option<Ref>)
    requires MayBeSilent(b, k)
    ensures q.Some? <==> k.Some?
    ensures q.Some? ==> q.value in b.refs && k.value in IndexKeys(q.value) && ResolveIn(b, q.value).alias.None?
  {
    q := None;
    if k.Some? {
      var w :| w in b.refs && k.value in IndexKeys(w) && ResolveIn(b, w).alias.None?;
      q := Some(w);
    }
  }

  lemma OverridableByFirst(b: Batch, r: Ref) returns (refs: seq<Ref>)
    requires r in b.refs && FirstKey(r).Some? && Rival(b, FirstKey(r).value, ResolveIn(b, r).alias)
    ensures multiset(refs) == multiset(b.refs) && LookedUp(b, refs, r) != ResolveIn(b, r).alias
  {
    var k, own := FirstKey(r).value, ResolveIn(b, r).alias;
    var q :| q in b.refs && k in IndexKeys(q) && ResolveIn(b, q).alias.Some? && ResolveIn(b, q).alias != own;
    refs := MovedLast(b.refs, q);
  }

  lemma SameIn(a: seq<Ref>, b: seq<Ref>, q: Ref)
    requires multiset(a) == multiset(b) && q in b
    ensures q in a
  {
    SameMembers(a, b);
  }

  /** Puts an item last that silences the item-specific entry; entries it does not write stay as they are. */
  lemma SilencedFirst(b: Batch, refs: seq<Ref>, r: Ref) returns (moved: seq<Ref>, q: Option<Ref>)
    requires multiset(refs) == multiset(b.refs) && MayBeSilent(b, FirstKey(r))
    ensures multiset(moved) == multiset(b.refs) && ByWriter(b, moved, FirstKey(r)).None?
    ensures q.Some? ==> FirstKey(r).Some? && FirstKey(r).value in IndexKeys(q.value) && ResolveIn(b, q.value).alias.None?
    ensures forall k :: Writer(moved, k) == if q.Some? && k in IndexKeys(q.value) then q else Writer(refs, k)
  {
    q := SilentWriter(b, FirstKey(r));
    moved := refs;
    if q.Some? {
      SameIn(refs, b.refs, q.value);
      moved := MovedLast(refs, q.value);
    }
  }

  lemma OverridableBySku(b: Batch, r: Ref) returns (refs: seq<Ref>)
    requires r in b.refs && SkuKey(r).Some? && Rival(b, SkuKey(r).value, ResolveIn(b, r).alias) && MayBeSilent(b, FirstKey(r))
    ensures multiset(refs) == multiset(b.refs) && LookedUp(b, refs, r) != ResolveIn(b, r).alias
  {
    var k, own := SkuKey(r).value, ResolveIn(b, r).alias;
    var q :| q in b.refs && k in IndexKeys(q) && ResolveIn(b, q).alias.Some? && ResolveIn(b, q).alias != own;
    refs := MovedLast(b.refs, q);
    if own.Some? {
      var silent;
      refs, silent := SilencedFirst(b, refs, r);
      if silent.Some? { SkuUnshared(b, r, silent.value); }
    }
  }

  lemma SkuUnshared(b: Batch, r: Ref, q: Ref)
    requires FirstKey(r).Some? && FirstKey(r).value in IndexKeys(q) && SkuKey(r).Some?
    requires ResolveIn(b, r).alias.Some? && ResolveIn(b, q).alias.None?
    ensures SkuKey(r).value !in IndexKeys(q)
  {
    FirstKeyShared(b, r, q);
  }

  lemma OverridableByName(b: Batch, r: Ref) returns (refs: seq<Ref>)
    requires r in b.refs && Disagrees(b, NameKey(r), ResolveIn(b, r).alias)
    requires MayBeSilent(b, FirstKey(r)) && MayBeSilent(b, SkuKey(r))
    ensures multiset(refs) == multiset(b.refs) && LookedUp(b, refs, r) != ResolveIn(b, r).alias
  {
    var own := ResolveIn(b, r).alias;
    var q :| q in b.refs && NameKey(r) in IndexKeys(q) && ResolveIn(b, q).alias != own;
    refs := MovedLast(b.refs, q);
    if own.Some? {
      var sku := SilentWriter(b, SkuKey(r));
      if sku.Some? {
        SameIn(refs, b.refs, sku.value);
        refs := MovedLast(refs, sku.value);
      }
      var first;
      refs, first := SilencedFirst(b, refs, r);
    }
  }

  lemma OverriddenWhy(b: Batch, refs: seq<Ref>, r: Ref)
    requires r in b.refs && multiset(refs) == multiset(b.refs) && LookedUp(b, refs, r) != ResolveIn(b, r).alias
    ensures Overridable(b, r)
  {
    var first, sku, name := FirstKey(r), SkuKey(r), NameKey(r);
    SameMembers(refs, b.refs);
    if first.Some? { WriterExists(refs, r, first.value); WriterIsOne(refs, first.value); }
    if sku.Some? { WriterExists(refs, r, sku.value); WriterIsOne(refs, sku.value); }
    WriterExists(refs, r, name);
    WriterIsOne(refs, name);
  }

  /**
   * The index gives a batch item its own resolution in every order of the batch if and only if the item
   * is not overridable: a condition on what the items sharing its entries resolve to by themselves.
   */
  lemma AgreesExactly(b: Batch, r: Ref)
    requires r in b.refs
    ensures AgreesInAnyOrder(b, r) <==> !Overridable(b, r)
  {
    if Overridable(b, r) {
      var refs;
      if FirstKey(r).Some? && Rival(b, FirstKey(r).value, ResolveIn(b, r).alias) {
        refs := OverridableByFirst(b, r);
      } else if MayBeSilent(b, FirstKey(r)) && SkuKey(r).Some? && Rival(b, SkuKey(r).value, ResolveIn(b, r).alias) {
        refs := OverridableBySku(b, r);
      } else {
        refs := OverridableByName(b, r);
      }
      var index := IndexExists(b, refs);
      SameIn(refs, b.refs, r);
      LookupExactly(b, index, refs, r);
      assert !AgreesInAnyOrder(b, r);
    } else {
      forall refs, index | multiset(refs) == multiset(b.refs) && IndexOf(index, b, refs)
        ensures ResolutionScoped(index, r).alias == ResolveIn(b, r).alias
      {
        SameIn(refs, b.refs, r);
        LookupExactly(b, index, refs, r);
        if LookedUp(b, refs, r) != ResolveIn(b, r).alias { OverriddenWhy(b, refs, r); }
      }
    }
  }

  /** An item without an alias stays without one in every order exactly when no item sharing an entry with it has one. */
  lemma UnaliasedInAnyOrder(b: Batch, r: Ref)
    requires r in b.refs && ResolveIn(b, r).alias.None?
    ensures AgreesInAnyOrder(b, r) <==> forall q :: q in b.refs && Share(r, q) ==> ResolveIn(b, q).alias.None?
  {
    AgreesExactly(b, r);
    forall k ensures k in IndexKeys(r) && !k.Legacy? <==> Some(k) == FirstKey(r) || Some(k) == SkuKey(r) || k == NameKey(r) {
      AccountKeys(r, k);
    }
    if q :| q in b.refs && Share(r, q) && ResolveIn(b, q).alias.Some? {
      var k :| k in IndexKeys(r) && k in IndexKeys(q) && !k.Legacy?;
      assert ResolveIn(b, q).alias != ResolveIn(b, r).alias;
      assert MayBeSilent(b, FirstKey(r)) && MayBeSilent(b, SkuKey(r));
      assert Overridable(b, r);
    }
    if Overridable(b, r) {
      var k, q :| k in IndexKeys(r) && !k.Legacy? && q in b.refs && k in IndexKeys(q) && ResolveIn(b, q).alias.Some?;
      assert Share(r, q);
    }
  }

  /** An alias found by the item's own identity or variant is never lost, whatever else the batch holds. */
  lemma OwnIdentityKept(b: Batch, r: Ref)
    requires r in b.refs && ResolveIn(b, r).alias.Some? && FirstKey(r).Some?
    requires if r.itemId != "" then Find(b.byKey, Identity(r.account, r.itemId, r.variantId)).Some?
             else ByVariant(r, b.byKey, b.tiktok).Some?
    ensures AgreesInAnyOrder(b, r)
  {
    AgreesExactly(b, r);
    forall q | q in b.refs && FirstKey(r).value in IndexKeys(q) ensures ResolveIn(b, q).alias == ResolveIn(b, r).alias {
      assert FirstKey(q) == FirstKey(r);
    }
  }

  /** Sharing matters: a product without an alias of its own gets the alias of another one with its SKU. */
  lemma SharedSkuLeaks() returns (b: Batch, index: map<Key, Resolution>, r: Ref)
    ensures IndexOf(index, b, b.refs) && r in b.refs
    ensures ResolveIn(b, r).alias.None? && ResolutionScoped(index, r).alias.Some?
  {
    var alias := Alias("A1", "default", "1", "", "", "", "C", "U", true, 1, None, None, None, "ready", true, 1);
    r := Ref("default", "2", "", "S", "N2", "n2");
    var other := Ref("default", "1", "", "S", "N1", "n1");
    b := Batch([r, other], map[Identity("default", "1", "") := alias], false, {"C"}, map[]);
    var mine, theirs := ResolveIn(b, r), ResolveIn(b, other);
    index := map[Identity("default", "2", "") := mine, Name("default", "n2") := mine, Legacy("S", "N2") := mine,
                 Identity("default", "1", "") := theirs, Name("default", "n1") := theirs, Legacy("S", "N1") := theirs,
                 Sku("default", "S") := theirs];
    assert b.refs[..1] == [r] && [r][..0] == [];
    assert forall k :: Writer([r], k) == if k in IndexKeys(r) then Some(r) else None;
    assert forall k :: Writer(b.refs, k) == if k in IndexKeys(other) then Some(other) else Writer([r], k);
  }
}
