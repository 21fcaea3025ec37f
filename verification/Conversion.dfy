/** Building a bill item from a resolved marketplace item: the target, and the conversion snapshot the sender relies on. */
module Conversion {
  import opened Wrappers
  import opened Money
  import opened Bills
  import opened Resolver
  import opened Attempts
  import Sender
  import Text

  const MAX_MULTIPLIER := 1_000_000

  datatype CatalogItem = CatalogItem(code: string, unit: string, isSet: bool, setValid: bool, setHash: string)

  /** Active products by normalised code. */
  type Products = map<string, CatalogItem>

  /** Drops byte-order marks and outer space; the placeholders nan, null and - mean no SKU. */
  function WithoutMarks(s: string): string {
    if s == "" then "" else (if s[0] == '\U{FEFF}' then "" else [s[0]]) + WithoutMarks(s[1..])
  }

  function NormalizeSku(sku: string): string {
    var s := Text.Trim(WithoutMarks(sku));
    if Text.Lower(s) == "nan" || Text.Lower(s) == "null" || s == "-" then "" else s
  }

  lemma {:induction false} WithoutMarksSplits(a: string, b: string)
    ensures WithoutMarks(a + b) == WithoutMarks(a) + WithoutMarks(b)
  {
    if a == "" {
      assert a + b == b;
    } else {
      assert (a + b)[1..] == a[1..] + b;
      WithoutMarksSplits(a[1..], b);
    }
  }

  /** Byte-order marks, and only they, are dropped. */
  lemma {:induction false} WithoutMarksExactly(s: string)
    ensures '\U{FEFF}' !in WithoutMarks(s)
    ensures WithoutMarks(s) == s <==> '\U{FEFF}' !in s
  {
    if s != "" {
      WithoutMarksExactly(s[1..]);
      assert s == [s[0]] + s[1..];
      assert '\U{FEFF}' !in s ==> WithoutMarks(s) == [s[0]] + s[1..];
    }
  }

  /** Space and a mark around a SKU do not count, and only the placeholders mean no SKU. */
  lemma NormalizeSkuExactly(before: string, sku: string, after: string)
    requires sku != "" && Text.Trimmed(sku) && '\U{FEFF}' !in sku
    requires forall i :: 0 <= i < |before| ==> Text.IsSpace(before[i])
    requires forall i :: 0 <= i < |after| ==> Text.IsSpace(after[i])
    ensures NormalizeSku("\U{FEFF}" + (before + sku + after)) ==
            if Text.Lower(sku) == "nan" || Text.Lower(sku) == "null" || sku == "-" then "" else sku
  {
    var line := before + sku + after;
    WithoutMarksSplits("\U{FEFF}", line);
    assert WithoutMarks("\U{FEFF}") == "" by { assert "\U{FEFF}"[1..] == ""; }
    assert '\U{FEFF}' !in before && '\U{FEFF}' !in after;
    assert '\U{FEFF}' !in line;
    WithoutMarksExactly(line);
    assert WithoutMarks("\U{FEFF}" + line) == line;
    Text.TrimExactly(before, sku, after);
  }

  function Lookup(products: Products, code: string): Option<CatalogItem> {
    Find(products, NormalizeSku(code))
  }

  predicate DocumentReady(c: Option<CatalogItem>) {
    c.Some? && (c.value.isSet ==> c.value.setValid)
  }

  datatype MappingMode = MappingShadow | MappingActive

  datatype Source = Source(
    rawName: string, sku: string, itemId: string, variantId: string, lineId: string,
    qty: real, price: Cents, gross: Cents, discount: Cents)

  function Plain(s: Source): BillItem {
    BillItem(s.rawName, NormalizeSku(s.sku), "", "", "", None, None, None, s.qty, Some(s.price), None, 0, false,
             None, None, None, None, None, None, None, None, "", "")
  }

  function FromMatch(s: Source, defaultUnit: string, alias: Option<Alias>, products: Products): BillItem {
    var bi, sku := Plain(s), NormalizeSku(s.sku);
    if alias.Some? && alias.value.active && DocumentReady(Lookup(products, alias.value.itemCode)) then
      bi.(itemCode := Some(alias.value.itemCode), unitCode := Some(alias.value.unitCode), mapped := true)
    else if sku != "" && DocumentReady(Lookup(products, sku)) then
      var c := Lookup(products, sku).value;
      bi.(itemCode := Some(c.code), unitCode := Some(if c.unit == "" then defaultUnit else c.unit), mapped := true)
    else bi
  }

  // ----- the conversion snapshot -----

  /** The quantity in SML units and in base units, where the policy's figures allow it. */
  function Converted(qty: real, multiplier: int, stand: real, divide: real): Option<(real, real)> {
    if !(1 <= multiplier <= MAX_MULTIPLIER) || qty < 0.0 || stand <= 0.0 || divide <= 0.0 then None
    else Some((SmlQuantity(qty, multiplier), BaseQuantity(qty, multiplier, stand, divide)))
  }

  /** Why an alias does not allow a conversion; empty when it does. */
  function PolicyIssue(alias: Option<Alias>, qty: real): string {
    if alias.None? then "conversion_policy_missing"
    else
      var a := alias.value;
      if !a.salesEnabled then "sales_disabled"
      else if a.status != "ready" then "conversion_" + a.status
      else if a.stand.None? || a.divide.None? then "unit_factor_missing"
      else if a.generation.None? || Text.Trim(a.generation.value) == "" then "unit_generation_missing"
      else if Converted(qty, a.multiplier, a.stand.value, a.divide.value).None? then "conversion_invalid"
      else ""
  }

  /** A conversion takes an enabled, ready alias with positive unit figures, a unit generation and a usable multiplier. */
  lemma PolicyReadyExactly(alias: Option<Alias>, qty: real)
    ensures PolicyIssue(alias, qty) == "" <==>
            && alias.Some? && alias.value.salesEnabled && alias.value.status == "ready"
            && alias.value.stand.Some? && alias.value.stand.value > 0.0 && alias.value.divide.Some? && alias.value.divide.value > 0.0
            && alias.value.generation.Some? && Text.Trim(alias.value.generation.value) != ""
            && 1 <= alias.value.multiplier <= 1_000_000 && qty >= 0.0
  {
  }

  /** The first thing missing is the one reported. */
  lemma PolicyIssueExactly(a: Alias, qty: real)
    ensures PolicyIssue(None, qty) == "conversion_policy_missing"
    ensures !a.salesEnabled ==> PolicyIssue(Some(a), qty) == "sales_disabled"
    ensures a.salesEnabled && a.status != "ready" ==> PolicyIssue(Some(a), qty) == "conversion_" + a.status
    ensures a.salesEnabled && a.status == "ready" ==>
              && (a.stand.None? || a.divide.None? ==> PolicyIssue(Some(a), qty) == "unit_factor_missing")
              && (a.stand.Some? && a.divide.Some? ==>
                    && (a.generation.None? || Text.Trim(a.generation.value) == "" ==> PolicyIssue(Some(a), qty) == "unit_generation_missing")
                    && (a.generation.Some? && Text.Trim(a.generation.value) != "" ==>
                          PolicyIssue(Some(a), qty) in {"", "conversion_invalid"}))
  {
  }

  /** Everything a later sender or dependency check needs is on the item. */
  predicate SnapshotComplete(item: BillItem, alias: Alias) {
    && item.smlQty == Some(SmlQuantity(item.qty, alias.multiplier))
    && item.multiplier == Some(alias.multiplier) && 1 <= alias.multiplier <= MAX_MULTIPLIER
    && item.stand == alias.stand && item.divide == alias.divide && item.stand.Some? && item.divide.Some?
    && item.stand.value > 0.0 && item.divide.value > 0.0
    && item.baseQty == Some(BaseQuantity(item.qty, alias.multiplier, item.stand.value, item.divide.value))
    && item.mappingRevision == Some(alias.revision)
    && item.unitGeneration == alias.generation && Sender.Generation(item) != ""
    && item.issue == ""
  }

  /** A bill item under construction, shared by reference. */
  class ItemCell {
    var item: BillItem

    constructor (initial: BillItem)
      ensures item == initial
    {
      item := initial;
    }

    method ApplyConversionSnapshot(alias: Option<Alias>, target: Option<CatalogItem>, mode: ConversionMode) returns (ready: bool)
      modifies this
      ensures ready <==> mode == Off || PolicyIssue(alias, old(item).qty) == ""
      ensures mode == Off ==> item == old(item).(sourceQty := Some(old(item).qty))
      ensures !ready ==> item == old(item).(sourceQty := Some(old(item).qty), issue := PolicyIssue(alias, old(item).qty))
      ensures ready && mode != Off ==> alias.Some? && SnapshotComplete(item, alias.value)
      ensures item.mapped == old(item).mapped && item.itemCode == old(item).itemCode && item.unitCode == old(item).unitCode
      ensures item.qty == old(item).qty && item.gross == old(item).gross && item.discount == old(item).discount
      ensures item.sourceSku == old(item).sourceSku && item.rawName == old(item).rawName && item.price == old(item).price
      ensures item.sourceVariantId == old(item).sourceVariantId && item.sourceItemId == old(item).sourceItemId
      ensures item.sourceLineId == old(item).sourceLineId && item.aliasId == old(item).aliasId
      ensures ready && mode != Off && target.Some? ==> item.setHash == target.value.setHash
    {
      var qty := item.qty;
      item := item.(sourceQty := Some(qty));
      if mode == Off { return true; }
      if alias.None? {
        item := item.(issue := "conversion_policy_missing");
        return false;
      }
      var a := alias.value;
      if !a.salesEnabled {
        item := item.(issue := "sales_disabled");
        return false;
      }
      if a.status != "ready" {
        item := item.(issue := "conversion_" + a.status);
        return false;
      }
      if a.stand.None? || a.divide.None? {
        item := item.(issue := "unit_factor_missing");
        return false;
      }
      if a.generation.None? || Text.Trim(a.generation.value) == "" {
        item := item.(issue := "unit_generation_missing");
        return false;
      }
      var converted := Converted(qty, a.multiplier, a.stand.value, a.divide.value);
      if converted.None? {
        item := item.(issue := "conversion_invalid");
        return false;
      }
      item := item.(smlQty := Some(converted.value.0), multiplier := Some(a.multiplier), stand := a.stand, divide := a.divide,
                    baseQty := Some(converted.value.1), mappingRevision := Some(a.revision), unitGeneration := a.generation);
      if target.Some? { item := item.(setHash := target.value.setHash); }
      item := item.(issue := "");
      assert SnapshotComplete(item, a) by {
        assert item.qty == qty && item.unitGeneration == a.generation;
        assert Sender.Generation(item) == Text.Trim(a.generation.value);
      }
      return true;
    }
  }

  /** The code names an active product, and a set product is a valid set. */
  predicate Usable(products: Products, code: string) {
    var c := NormalizeSku(code);
    c in products && !(products[c].isSet && !products[c].setValid)
  }

  /** Code and unit come together: the active alias's own, else those of the SKU's product, else none. */
  predicate Chosen(item: BillItem, s: Source, defaultUnit: string, alias: Option<Alias>, products: Products) {
    if alias.Some? && alias.value.active && Usable(products, alias.value.itemCode) then
      item.itemCode == Some(alias.value.itemCode) && item.unitCode == Some(alias.value.unitCode)
    else
      var sku := NormalizeSku(s.sku);
      if sku != "" && Usable(products, sku) then
        var product := products[NormalizeSku(sku)];
        && item.itemCode == Some(product.code)
        && item.unitCode == Some(if product.unit != "" then product.unit else defaultUnit)
      else item.itemCode == None && item.unitCode == None
  }

  /** A target is found exactly for a usable alias or a usable product of the SKU. */
  predicate HasTarget(s: Source, alias: Option<Alias>, products: Products) {
    || (alias.Some? && alias.value.active && Usable(products, alias.value.itemCode))
    || (NormalizeSku(s.sku) != "" && Usable(products, NormalizeSku(s.sku)))
  }

  lemma FromMatchExactly(s: Source, defaultUnit: string, alias: Option<Alias>, products: Products)
    ensures var bi := FromMatch(s, defaultUnit, alias, products);
            Chosen(bi, s, defaultUnit, alias, products) && (bi.mapped <==> HasTarget(s, alias, products))
  {
  }

  /** Without a target a line without a SKU may take the learned one, in shadow mode only. */
  predicate Takes(item: BillItem, s: Source, defaultUnit: string, resolved: Resolution, products: Products, mapping: MappingMode,
                  learnedUnit: string)
  {
    if mapping == MappingShadow && !HasTarget(s, resolved.alias, products) && NormalizeSku(s.sku) == "" && resolved.learned.Some? then
      item.itemCode == Some(resolved.learned.value) && item.unitCode == Some(learnedUnit)
    else Chosen(item, s, defaultUnit, resolved.alias, products)
  }

  predicate Named(item: BillItem, s: Source, resolved: Resolution) {
    && item.sourceItemId == Text.Trim(s.itemId) && item.sourceVariantId == Text.Trim(s.variantId)
    && item.sourceLineId == Text.Trim(s.lineId)
    && item.aliasId == if resolved.alias.Some? then Some(resolved.alias.value.id) else None
  }

  /** A target the document may use: the alias's own, or the exact product of the SKU. */
  predicate ReadyTarget(code: string, s: Source, alias: Option<Alias>, products: Products) {
    || (alias.Some? && code == alias.value.itemCode && alias.value.active && DocumentReady(Lookup(products, code)))
    || (DocumentReady(Lookup(products, NormalizeSku(s.sku))) && code == Lookup(products, NormalizeSku(s.sku)).value.code)
  }

  predicate CarriesLine(item: BillItem, s: Source) {
    && item.gross == Some(s.gross) && item.discount == s.discount && item.qty == s.qty && item.price == Some(s.price)
    && item.rawName == s.rawName && item.sourceSku == NormalizeSku(s.sku)
  }

  /** The line with its target, before the conversion. */
  method Targeted(s: Source, defaultUnit: string, resolved: Resolution, products: Products, mapping: MappingMode, learnedUnit: string)
    returns (item: BillItem)
    ensures CarriesLine(item, s) && Named(item, s, resolved)
    ensures Takes(item, s, defaultUnit, resolved, products, mapping, learnedUnit)
    ensures item.mapped <==>
              || HasTarget(s, resolved.alias, products)
              || (mapping == MappingShadow && NormalizeSku(s.sku) == "" && resolved.learned.Some?)
    ensures mapping == MappingActive ==> item.mapped == FromMatch(s, defaultUnit, resolved.alias, products).mapped
    ensures mapping == MappingActive && item.mapped ==>
              item.itemCode.Some? && ReadyTarget(item.itemCode.value, s, resolved.alias, products)
  {
    item := FromMatch(s, defaultUnit, resolved.alias, products);
    FromMatchExactly(s, defaultUnit, resolved.alias, products);
    item := item.(gross := Some(s.gross), discount := s.discount);
    if mapping == MappingShadow && !item.mapped && NormalizeSku(s.sku) == "" && resolved.learned.Some? {
      item := item.(itemCode := Some(resolved.learned.value), unitCode := Some(learnedUnit), mapped := true);
    }
    item := item.(sourceItemId := Text.Trim(s.itemId), sourceVariantId := Text.Trim(s.variantId), sourceLineId := Text.Trim(s.lineId));
    if resolved.alias.Some? { item := item.(aliasId := Some(resolved.alias.value.id)); }
  }

  /** What an import makes of a line in a converting tenant, as far as the sender can tell. */
  predicate Imported(item: BillItem, s: Source, alias: Option<Alias>, mode: ConversionMode) {
    && CarriesLine(item, s)
    && (mode == Active && item.mapped ==> alias.Some? && SnapshotComplete(item, alias.value))
    && (mode == Active && PolicyIssue(alias, s.qty) != "" ==> item.issue == PolicyIssue(alias, s.qty) && !item.mapped)
  }

  /** A marketplace line as a bill item; the amounts are the line's own whatever it resolves to. */
  method FromResolution(s: Source, defaultUnit: string, resolved: Resolution, products: Products, mapping: MappingMode,
                        learnedUnit: string, mode: ConversionMode) returns (item: BillItem)
    ensures Imported(item, s, resolved.alias, mode) && Named(item, s, resolved)
    ensures Takes(item, s, defaultUnit, resolved, products, mapping, learnedUnit)
    ensures item.mapped <==>
              && (|| HasTarget(s, resolved.alias, products)
                  || (mapping == MappingShadow && NormalizeSku(s.sku) == "" && resolved.learned.Some?))
              && (mode == Active ==> PolicyIssue(resolved.alias, s.qty) == "")
    ensures mapping == MappingActive && item.mapped ==>
              item.itemCode.Some? && ReadyTarget(item.itemCode.value, s, resolved.alias, products)
    ensures mapping == MappingActive && mode == Active ==>
              (item.mapped <==> PolicyIssue(resolved.alias, s.qty) == ""
                                && FromMatch(s, defaultUnit, resolved.alias, products).mapped)
  {
    var bi := Targeted(s, defaultUnit, resolved, products, mapping, learnedUnit);
    var cell := new ItemCell(bi);
    var target := Lookup(products, if bi.itemCode.Some? then bi.itemCode.value else "");
    var ready := cell.ApplyConversionSnapshot(resolved.alias, target, mode);
    item := cell.item;
    if mode == Active && !ready { item := item.(mapped := false); }
  }

  // ----- what the sender makes of it -----

  lemma IssueText(alias: Option<Alias>, qty: real)
    requires PolicyIssue(alias, qty) != ""
    ensures Text.Trim(PolicyIssue(alias, qty)) != ""
  {
    Text.TrimKeeps(PolicyIssue(alias, qty), 0);
  }

  /**
   * A mapped item of a converting import passes the sender's quantity rule, with exactly the
   * converted quantity unless its SKU is one of the reserved shipping codes.
   */
  lemma MappedIsSendable(item: BillItem, s: Source, imported: Option<Alias>, alias: Alias)
    requires Imported(item, s, imported, Active) && item.mapped && imported == Some(alias) && s.qty > 0.0
    ensures EffectiveSmlQuantity(item, Active).Ok?
    ensures EffectiveSmlQuantity(item, Active).value == SmlQuantity(item.qty, alias.multiplier)
            <==> !ReservedSku(item.sourceSku) || alias.multiplier == 1
    ensures EffectiveSmlQuantity(item, Active).value > 0.0
  {
    Positive(item.qty, alias.multiplier);
  }

  lemma Positive(qty: real, multiplier: int)
    requires qty > 0.0 && multiplier >= 1
    ensures SmlQuantity(qty, multiplier) > 0.0
    ensures SmlQuantity(qty, multiplier) == qty <==> multiplier == 1
  {
    if multiplier > 1 {
      assert SmlQuantity(qty, multiplier) == qty + qty * (multiplier - 1) as real;
      assert qty * (multiplier - 1) as real > 0.0;
    }
  }

  /**
   * A line imported while its conversion is not ready carries a reason, is refused by the quantity rule
   * unless its SKU is reserved, and keeps its bill from being sent.
   */
  lemma UnreadyNeverSent(view: Sender.View, reviewRequired: bool, o: Sender.Options, i: nat, s: Source, alias: Option<Alias>)
    requires i < |view.items| && Imported(view.items[i], s, alias, Active) && PolicyIssue(alias, s.qty) != ""
    ensures !Sender.Prepare(view, reviewRequired, o).Go?
    ensures Text.Trim(view.items[i].issue) != ""
    ensures EffectiveSmlQuantity(view.items[i], Active).Ok? <==> ReservedSku(view.items[i].sourceSku)
  {
    IssueText(alias, s.qty);
    Sender.GoesExactly(view, reviewRequired, o);
    assert !ItemMapped(view.items[i], o.catalog);
  }
}
