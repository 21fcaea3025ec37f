/**
 * Bill items, the quantity the ERP document uses, the amount fingerprint and the
 * checks a bill passes before its payload is frozen.
 */
module Bills {
  import opened Wrappers
  import opened Money
  import Text

  datatype ConversionMode = Off | Shadow | Active

  datatype BillItem = BillItem(
    rawName: string,
    sourceSku: string,
    sourceItemId: string,
    sourceVariantId: string,
    sourceLineId: string,
    aliasId: Option<string>,
    itemCode: Option<string>,
    unitCode: Option<string>,
    qty: real,
    price: Option<Cents>,
    gross: Option<Cents>,
    discount: Cents,
    mapped: bool,
    sourceQty: Option<real>,
    smlQty: Option<real>,
    multiplier: Option<int>,
    stand: Option<real>,
    divide: Option<real>,
    baseQty: Option<real>,
    mappingRevision: Option<int>,
    unitGeneration: Option<string>,
    setHash: string,
    issue: string)

  const SHOPEE_SHIPPING_SKU := "__shopee_shipping__"
  const LAZADA_SHIPPING_SKU := "__lazada_shipping__"
  const TIKTOK_SHIPPING_SKU := "__tiktok_shipping__"

  predicate ReservedSku(sku: string) {
    sku == SHOPEE_SHIPPING_SKU || sku == LAZADA_SHIPPING_SKU || sku == TIKTOK_SHIPPING_SKU
  }

  datatype QuantityError = IssueReported(code: string) | SnapshotMissing

  /** The quantity written to the ERP line, or why the line may not be sent. */
  function EffectiveSmlQuantity(item: BillItem, mode: ConversionMode): Result<real, QuantityError> {
    if mode != Active then Ok(item.qty)
    else if ReservedSku(item.sourceSku) then Ok(item.qty)
    else if Text.Trim(item.issue) != "" then Err(IssueReported(Text.Trim(item.issue)))
    else if item.smlQty.None? || item.smlQty.value <= 0.0 then Err(SnapshotMissing)
    else Ok(item.smlQty.value)
  }

  // ----- unit conversion -----

  function SmlQuantity(qty: real, multiplier: int): real {
    qty * multiplier as real
  }

  function BaseQuantity(qty: real, multiplier: int, stand: real, divide: real): real
    requires divide != 0.0
  {
    SmlQuantity(qty, multiplier) * (stand / divide)
  }

  // ----- amounts -----

  /** Quantity times price in unrounded cents. */
  function Extended(qty: real, price: Option<Cents>): real {
    qty * (if price.Some? then price.value as real else 0.0)
  }

  /** The stored gross amount, or quantity times price. */
  function GrossValue(item: BillItem): real {
    if item.gross.Some? then item.gross.value as real else Extended(item.qty, item.price)
  }

  /** One line of the amount fingerprint; hashing the encoded lines is taken to be injective. */
  datatype AmountLine = AmountLine(
    rawName: string, sourceSku: string, sourceVariantId: string,
    qty: real, price: Cents, gross: Cents, discount: Cents)

  type Fingerprint = seq<AmountLine>

  function AmountLineOf(item: BillItem): AmountLine {
    AmountLine(item.rawName, item.sourceSku, item.sourceVariantId, item.qty,
               if item.price.Some? then item.price.value else 0,
               RoundToCents(GrossValue(item)), item.discount)
  }

  function AmountFingerprint(items: seq<BillItem>): (f: Fingerprint)
    ensures |f| == |items|
    ensures forall i :: 0 <= i < |items| ==> f[i] == AmountLineOf(items[i])
  {
    seq(|items|, i requires 0 <= i < |items| => AmountLineOf(items[i]))
  }

  /** The three products amounts and quantities are made of. */
  lemma ProductsExactly(qty: real, price: Option<Cents>, multiplier: int, stand: real, divide: real)
    requires divide != 0.0
    ensures Extended(qty, price) == if price.Some? then qty * price.value as real else 0.0
    ensures SmlQuantity(qty, multiplier) == qty * multiplier as real
    ensures BaseQuantity(qty, multiplier, stand, divide) * divide == qty * multiplier as real * stand
  {
  }

  /** A line's gross amount before rounding: the stored one, or quantity times price, or nothing. */
  lemma GrossExactly(item: BillItem)
    ensures item.gross.Some? ==> GrossValue(item) == item.gross.value as real
    ensures item.gross.None? && item.price.Some? ==> GrossValue(item) == item.qty * item.price.value as real
    ensures item.gross.None? && item.price.None? ==> GrossValue(item) == 0.0
  {
  }

  /** Equal in everything an operator confirms an amount by. */
  predicate SameAmounts(a: BillItem, b: BillItem) {
    && a.rawName == b.rawName && a.sourceSku == b.sourceSku && a.sourceVariantId == b.sourceVariantId
    && a.qty == b.qty && a.discount == b.discount
    && (if a.price.Some? then a.price.value else 0) == (if b.price.Some? then b.price.value else 0)
    && RoundToCents(GrossValue(a)) == RoundToCents(GrossValue(b))
  }

  /** Equal fingerprints mean the same lines with the same amounts, in the same order, and conversely. */
  lemma FingerprintExactly(a: seq<BillItem>, b: seq<BillItem>)
    ensures AmountFingerprint(a) == AmountFingerprint(b) <==>
            |a| == |b| && forall i :: 0 <= i < |a| ==> SameAmounts(a[i], b[i])
  {
    var f, g := AmountFingerprint(a), AmountFingerprint(b);
    if f == g {
      forall i | 0 <= i < |a| ensures SameAmounts(a[i], b[i]) { assert f[i] == g[i]; }
    }
    if |a| == |b| && forall i :: 0 <= i < |a| ==> SameAmounts(a[i], b[i]) {
      forall i | 0 <= i < |a| ensures f[i] == g[i] { assert SameAmounts(a[i], b[i]); }
    }
  }

  /** The sender's sanity check; the tolerance is a tenth of a cent. */
  predicate AmountsSane(item: BillItem) {
    GrossValue(item) >= 0.0 && item.discount >= 0 && item.discount as real <= GrossValue(item) + 0.1
  }

  // ----- readiness and payload lines -----

  /** Active product codes with their names. */
  type Catalog = map<string, string>

  predicate ItemMapped(item: BillItem, catalog: Catalog) {
    item.mapped && item.itemCode.Some? && Text.Trim(item.itemCode.value) != "" &&
    Text.Trim(item.itemCode.value) in catalog
  }

  datatype Line = Line(itemCode: string, name: string, qty: real, price: Cents, gross: Option<Cents>, discount: Cents, unitCode: string)

  function LineName(item: BillItem, catalog: Catalog): string
    requires item.itemCode.Some?
  {
    var code := item.itemCode.value;
    if code != "" && code in catalog && catalog[code] != "" then catalog[code] else item.rawName
  }

  /** The item's own unit; an empty unit falls back to the route's setting. */
  function UnitText(item: BillItem): string {
    if item.unitCode.Some? then item.unitCode.value else ""
  }

  function LineOf(item: BillItem, qty: real, catalog: Catalog): Line
    requires item.itemCode.Some?
  {
    Line(item.itemCode.value, LineName(item, catalog), qty,
         if item.price.Some? then item.price.value else 0, item.gross, item.discount,
         UnitText(item))
  }

  /** The payload lines of a bill: items without a code are skipped, the first quantity error stops. */
  function Lines(items: seq<BillItem>, mode: ConversionMode, catalog: Catalog): Result<seq<Line>, QuantityError> {
    if items == [] then Ok([])
    else
      var front := Lines(items[..|items| - 1], mode, catalog);
      var item := items[|items| - 1];
      if front.Err? then front
      else if item.itemCode.None? then front
      else
        var qty := EffectiveSmlQuantity(item, mode);
        if qty.Err? then Err(qty.error) else Ok(front.value + [LineOf(item, qty.value, catalog)])
  }

  method BuildLines(items: seq<BillItem>, mode: ConversionMode, catalog: Catalog)
    returns (lines: Result<seq<Line>, QuantityError>)
    ensures lines == Lines(items, mode, catalog)
  {
    var built := [];
    for i := 0 to |items|
      invariant Lines(items[..i], mode, catalog) == Ok(built)
    {
      assert items[..i + 1][..i] == items[..i];
      if items[i].itemCode.Some? {
        var qty := EffectiveSmlQuantity(items[i], mode);
        if qty.Err? {
          FirstErrorStops(items, i + 1, mode, catalog);
          return Err(qty.error);
        }
        built := built + [LineOf(items[i], qty.value, catalog)];
      }
    }
    assert items[..|items|] == items;
    return Ok(built);
  }

  lemma {:induction false} FirstErrorStops(items: seq<BillItem>, n: nat, mode: ConversionMode, catalog: Catalog)
    requires n <= |items|
    requires Lines(items[..n], mode, catalog).Err?
    ensures Lines(items, mode, catalog) == Lines(items[..n], mode, catalog)
    decreases |items| - n
  {
    if n == |items| {
      assert items[..n] == items;
    } else {
      assert items[..n + 1][..n] == items[..n];
      FirstErrorStops(items, n + 1, mode, catalog);
    }
  }

  /** A payload line says what its item says, with the quantity the conversion rule accepts. */
  predicate Faithful(item: BillItem, mode: ConversionMode, line: Line) {
    && item.mapped
    && item.itemCode == Some(line.itemCode)
    && EffectiveSmlQuantity(item, mode) == Ok(line.qty)
    && line.price == (if item.price.Some? then item.price.value else 0)
    && line.gross == item.gross && line.discount == item.discount
  }

  predicate FaithfulLines(items: seq<BillItem>, mode: ConversionMode, lines: seq<Line>) {
    |lines| == |items| && forall i :: 0 <= i < |items| ==> Faithful(items[i], mode, lines[i])
  }

  predicate QuantityReady(item: BillItem, mode: ConversionMode) {
    EffectiveSmlQuantity(item, mode).Ok?
  }

  predicate AllReady(items: seq<BillItem>, mode: ConversionMode) {
    forall i :: 0 <= i < |items| ==> QuantityReady(items[i], mode)
  }

  predicate AllMapped(items: seq<BillItem>, catalog: Catalog) {
    forall i :: 0 <= i < |items| ==> ItemMapped(items[i], catalog)
  }

  lemma LineOfFaithful(item: BillItem, mode: ConversionMode, catalog: Catalog)
    requires ItemMapped(item, catalog) && QuantityReady(item, mode)
    ensures Faithful(item, mode, LineOf(item, EffectiveSmlQuantity(item, mode).value, catalog))
  {
  }

  lemma ReadyAppend(items: seq<BillItem>, mode: ConversionMode)
    requires items != []
    ensures AllReady(items, mode) <==> AllReady(items[..|items| - 1], mode) && QuantityReady(items[|items| - 1], mode)
  {
    var front := items[..|items| - 1];
    if AllReady(items, mode) {
      forall i | 0 <= i < |front| ensures QuantityReady(front[i], mode) { assert front[i] == items[i]; }
    }
    if AllReady(front, mode) && QuantityReady(items[|items| - 1], mode) {
      forall i | 0 <= i < |items| ensures QuantityReady(items[i], mode) {
        if i < |front| { assert front[i] == items[i]; }
      }
    }
  }

  lemma FaithfulAppend(items: seq<BillItem>, mode: ConversionMode, lines: seq<Line>, line: Line)
    requires items != []
    requires FaithfulLines(items[..|items| - 1], mode, lines) && Faithful(items[|items| - 1], mode, line)
    ensures FaithfulLines(items, mode, lines + [line])
  {
    var front, all := items[..|items| - 1], lines + [line];
    forall i | 0 <= i < |items| ensures Faithful(items[i], mode, all[i]) {
      if i < |front| { assert front[i] == items[i] && all[i] == lines[i]; }
    }
  }

  /** Rendering a fully mapped bill succeeds exactly when every quantity is ready, and is then line by line faithful. */
  lemma {:induction false} LinesFaithful(items: seq<BillItem>, mode: ConversionMode, catalog: Catalog)
    requires AllMapped(items, catalog)
    ensures Lines(items, mode, catalog).Ok? <==> AllReady(items, mode)
    ensures Lines(items, mode, catalog).Ok? ==> FaithfulLines(items, mode, Lines(items, mode, catalog).value)
  {
    if items != [] {
      var front, last := items[..|items| - 1], items[|items| - 1];
      assert AllMapped(front, catalog) by {
        forall i | 0 <= i < |front| ensures ItemMapped(front[i], catalog) { assert front[i] == items[i]; }
      }
      LinesFaithful(front, mode, catalog);
      ReadyAppend(items, mode);
      assert ItemMapped(last, catalog);
      if Lines(front, mode, catalog).Ok? && QuantityReady(last, mode) {
        LineOfFaithful(last, mode, catalog);
        FaithfulAppend(items, mode, Lines(front, mode, catalog).value, LineOf(last, EffectiveSmlQuantity(last, mode).value, catalog));
      }
    }
  }

  /** A line is named as the catalog names its code, or as the marketplace did where the catalog has no name. */
  lemma {:induction false} LinesNamed(items: seq<BillItem>, mode: ConversionMode, catalog: Catalog, i: nat)
    requires (forall j :: 0 <= j < |items| ==> items[j].itemCode.Some?) && Lines(items, mode, catalog).Ok? && i < |items|
    ensures |Lines(items, mode, catalog).value| == |items|
    ensures var code, name := items[i].itemCode.value, Lines(items, mode, catalog).value[i].name;
            if code != "" && code in catalog && catalog[code] != "" then name == catalog[code] else name == items[i].rawName
  {
    var n := |items| - 1;
    var front := items[..n];
    if n > 0 { LinesNamed(front, mode, catalog, if i < n then i else 0); }
    assert Lines(items, mode, catalog).value[..n] == Lines(front, mode, catalog).value;
  }

  // ----- units on the sale-invoice route -----

  /** The invoice builder looks the unit up by product code in a cache filled in item order. */
  function UnitCache(items: seq<BillItem>): (cache: map<string, string>) {
    if items == [] then map[]
    else
      var item, front := items[|items| - 1], UnitCache(items[..|items| - 1]);
      if item.itemCode.None? || item.unitCode.None? then front else front[item.itemCode.value := item.unitCode.value]
  }

  method FillUnitCache(items: seq<BillItem>) returns (cache: map<string, string>)
    ensures cache == UnitCache(items)
  {
    cache := map[];
    for i := 0 to |items|
      invariant cache == UnitCache(items[..i])
    {
      assert items[..i + 1][..i] == items[..i];
      if items[i].itemCode.Some? && items[i].unitCode.Some? {
        cache := cache[items[i].itemCode.value := items[i].unitCode.value];
      }
    }
    assert items[..|items|] == items;
  }

  function InvoiceUnits(lines: seq<Line>, cache: map<string, string>): (r: seq<Line>)
    ensures |r| == |lines|
  {
    seq(|lines|, i requires 0 <= i < |lines| =>
      lines[i].(unitCode := if lines[i].itemCode in cache then cache[lines[i].itemCode] else ""))
  }

  /** Two items sold under one product code in one unit. */
  predicate UnitsAgree(items: seq<BillItem>) {
    forall i, j :: 0 <= i < |items| && 0 <= j < |items| && items[i].itemCode == items[j].itemCode ==>
      UnitText(items[i]) == UnitText(items[j])
  }

  predicate CacheSays(items: seq<BillItem>, cache: map<string, string>) {
    && (forall i :: 0 <= i < |items| && items[i].itemCode.Some? && items[i].unitCode.Some? ==> items[i].itemCode.value in cache)
    && (forall code :: code in cache ==>
          exists i :: 0 <= i < |items| && items[i].itemCode == Some(code) && items[i].unitCode == Some(cache[code]))
  }

  lemma {:induction false} UnitCacheSays(items: seq<BillItem>)
    ensures CacheSays(items, UnitCache(items))
  {
    if items != [] {
      var n := |items| - 1;
      var front, item := items[..n], items[n];
      UnitCacheSays(front);
      forall code | code in UnitCache(items)
        ensures exists i :: 0 <= i < |items| && items[i].itemCode == Some(code) && items[i].unitCode == Some(UnitCache(items)[code])
      {
        if item.itemCode == Some(code) && item.unitCode.Some? {
          assert items[n].unitCode == Some(UnitCache(items)[code]);
        } else {
          var i :| 0 <= i < n && front[i].itemCode == Some(code) && front[i].unitCode == Some(UnitCache(front)[code]);
          assert items[i] == front[i];
        }
      }
      forall i | 0 <= i < |items| && items[i].itemCode.Some? && items[i].unitCode.Some?
        ensures items[i].itemCode.value in UnitCache(items)
      {
        if i < n { assert front[i] == items[i]; }
      }
    }
  }

  predicate NamesUnit(item: BillItem, code: string) {
    item.itemCode == Some(code) && item.unitCode.Some?
  }

  /** A product's unit in the cache is that of the last item naming one, and there is none without such an item. */
  lemma {:induction false} LastUnitWins(items: seq<BillItem>, code: string, i: nat)
    requires i <= |items| && forall j :: i < j < |items| ==> !NamesUnit(items[j], code)
    requires i < |items| ==> NamesUnit(items[i], code)
    requires i == |items| ==> forall j :: 0 <= j < |items| ==> !NamesUnit(items[j], code)
    ensures i < |items| ==> code in UnitCache(items) && UnitCache(items)[code] == items[i].unitCode.value
    ensures i == |items| ==> code !in UnitCache(items)
  {
    if items != [] {
      var n := |items| - 1;
      var front := items[..n];
      assert forall j :: 0 <= j < n ==> front[j] == items[j];
      if i < n {
        LastUnitWins(front, code, i);
        assert !NamesUnit(items[n], code);
      } else if i > n {
        LastUnitWins(front, code, n);
        assert !NamesUnit(items[n], code);
      }
    }
  }

  predicate UnitsKept(items: seq<BillItem>, lines: seq<Line>) {
    |lines| == |items| && forall i :: 0 <= i < |items| ==> lines[i].unitCode == UnitText(items[i])
  }

  predicate CodesKept(items: seq<BillItem>, lines: seq<Line>) {
    |lines| == |items| && forall i :: 0 <= i < |items| ==> items[i].itemCode == Some(lines[i].itemCode)
  }

  lemma AgreeingUnitIsCached(items: seq<BillItem>, i: nat)
    requires UnitsAgree(items) && i < |items| && items[i].itemCode.Some? && items[i].itemCode.value in UnitCache(items)
    ensures UnitCache(items)[items[i].itemCode.value] == UnitText(items[i])
  {
    var code := items[i].itemCode.value;
    UnitCacheSays(items);
    var k :| 0 <= k < |items| && items[k].itemCode == Some(code) && items[k].unitCode == Some(UnitCache(items)[code]);
    assert UnitText(items[k]) == UnitText(items[i]);
  }

  /**
   * On the sale-invoice route every line keeps its own item's unit exactly when items that
   * share a product code share the unit; otherwise the last item's unit replaces the others.
   */
  lemma InvoiceUnitsExact(items: seq<BillItem>, lines: seq<Line>)
    requires CodesKept(items, lines)
    ensures UnitsKept(items, InvoiceUnits(lines, UnitCache(items))) <==> UnitsAgree(items)
  {
    var cache := UnitCache(items);
    var out := InvoiceUnits(lines, cache);
    if UnitsKept(items, out) {
      forall i, j | 0 <= i < |items| && 0 <= j < |items| && items[i].itemCode == items[j].itemCode
        ensures UnitText(items[i]) == UnitText(items[j])
      {
        assert out[i].unitCode == out[j].unitCode;
      }
    }
    if UnitsAgree(items) {
      UnitCacheSays(items);
      forall i | 0 <= i < |items| ensures out[i].unitCode == UnitText(items[i]) {
        if lines[i].itemCode in cache { AgreeingUnitIsCached(items, i); }
      }
    }
  }
}
