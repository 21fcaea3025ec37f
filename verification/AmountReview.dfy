/** From an imported Lazada order to its bill, and the reconciliation report written when an operator accepts a difference. */
module AmountReview {
  import opened Wrappers
  import opened Money
  import opened Bills
  import opened Lazada
  import opened Resolver
  import opened Conversion
  import opened Permutations
  import Attempts
  import Text

  // ----- what a closed order guarantees -----

  predicate HeadersDiffer(a: Row, b: Row) {
    a.status != b.status || a.orderedAt != b.orderedAt || a.payment != b.payment
  }

  lemma {:induction false} FirstIsRow(rows: seq<Row>, id: string)
    ensures FirstOf(rows, id).Some? ==> FirstOf(rows, id).value in rows && In(FirstOf(rows, id).value, id)
  {
    if rows != [] { FirstIsRow(rows[..|rows| - 1], id); }
  }

  predicate AnyBad(rows: seq<Row>, id: string) {
    exists r :: r in rows && In(r, id) && Bad(r)
  }

  predicate AnyDiffer(rows: seq<Row>, id: string) {
    exists a, b :: a in rows && b in rows && In(a, id) && In(b, id) && HeadersDiffer(a, b)
  }

  lemma BlockedWhy(rows: seq<Row>, id: string)
    requires AnyBlocks(rows, id)
    ensures AnyBad(rows, id) || AnyDiffer(rows, id)
  {
    FirstIsRow(rows, id);
    var i :| 0 <= i < |rows| && Blocks(rows, i, id);
    var r := rows[i];
    if !Bad(r) { assert HeadersDiffer(FirstOf(rows, id).value, r); }
  }

  lemma BadBlocks(rows: seq<Row>, id: string, r: Row)
    requires r in rows && In(r, id) && Bad(r)
    ensures AnyBlocks(rows, id)
  {
    var i :| 0 <= i < |rows| && rows[i] == r;
    assert Blocks(rows, i, id);
  }

  lemma DifferBlocks(rows: seq<Row>, id: string, a: Row, b: Row)
    requires a in rows && b in rows && In(a, id) && In(b, id) && HeadersDiffer(a, b)
    ensures AnyBlocks(rows, id)
  {
    var i :| 0 <= i < |rows| && rows[i] == a;
    var j :| 0 <= j < |rows| && rows[j] == b;
    HasFirst(rows, i, id);
    assert Blocks(rows, i, id) || Blocks(rows, j, id);
  }

  /** An order is blocked exactly when a row of it is unusable or two of its rows disagree about the order. */
  lemma BlockedExactly(rows: seq<Row>, id: string)
    ensures AnyBlocks(rows, id) <==> AnyBad(rows, id) || AnyDiffer(rows, id)
  {
    if AnyBlocks(rows, id) { BlockedWhy(rows, id); }
    if r :| r in rows && In(r, id) && Bad(r) { BadBlocks(rows, id, r); }
    if a, b :| a in rows && b in rows && In(a, id) && In(b, id) && HeadersDiffer(a, b) { DifferBlocks(rows, id, a, b); }
  }

  lemma MismatchByMember(rows: seq<Row>, id: string)
    ensures AnyMismatch(rows, id) <==> exists r :: r in rows && In(r, id) && RowMismatch(r)
  {
    if r :| r in rows && In(r, id) && RowMismatch(r) {
      var i :| 0 <= i < |rows| && rows[i] == r;
    }
    if AnyMismatch(rows, id) {
      var i :| 0 <= i < |rows| && In(rows[i], id) && RowMismatch(rows[i]);
      assert rows[i] in rows;
    }
  }

  lemma FlagsPermuted(rows: seq<Row>, rows2: seq<Row>, id: string)
    requires multiset(rows) == multiset(rows2)
    ensures AnyBlocks(rows, id) <==> AnyBlocks(rows2, id)
    ensures AnyMismatch(rows, id) <==> AnyMismatch(rows2, id)
  {
    SameMembers(rows, rows2);
    BlockedExactly(rows, id);
    BlockedExactly(rows2, id);
    MismatchByMember(rows, id);
    MismatchByMember(rows2, id);
  }

  /** The same rows in another order give the same totals and flags. */
  lemma OrderPermuted(o: Order, rows: seq<Row>, o2: Order, rows2: seq<Row>)
    requires Closed(o, rows) && Closed(o2, rows2) && o.id == o2.id && multiset(rows) == multiset(rows2)
    ensures o2.gross == o.gross && o2.discount == o.discount && o2.platform == o.platform && o2.seller == o.seller
    ensures o2.net == o.net && o2.shipping == o.shipping && o2.paid == o.paid && o2.difference == o.difference
    ensures o2.blocked == o.blocked && o2.mismatch == o.mismatch && o2.noSku == o.noSku
  {
    TotalPermuted(rows, rows2, GrossIn(o.id));
    TotalPermuted(rows, rows2, DiscountIn(o.id));
    TotalPermuted(rows, rows2, PlatformIn(o.id));
    TotalPermuted(rows, rows2, SellerIn(o.id));
    TotalPermuted(rows, rows2, ShippingIn(o.id));
    TotalPermuted(rows, rows2, PaidIn(o.id));
    TotalPermuted(rows, rows2, NoSkuIn(o.id));
    FlagsPermuted(rows, rows2, o.id);
  }

  lemma {:induction false} KeyHasRow(rows: seq<Row>, id: string, k: Lazada.Key)
    requires Total(rows, OfKey(id, k)) != 0
    ensures exists i :: 0 <= i < |rows| && In(rows[i], id) && KeyOf(rows[i]) == k
  {
    if forall i :: 0 <= i < |rows| && In(rows[i], id) ==> KeyOf(rows[i]) != k { NoKey(rows, id, k); }
  }

  /** ... and the same items up to their order: every key with its quantity and amounts. */
  lemma ItemsPermuted(o: Order, rows: seq<Row>, o2: Order, rows2: seq<Row>, i: nat)
    requires Closed(o, rows) && Closed(o2, rows2) && o.id == o2.id && multiset(rows) == multiset(rows2) && i < |o.items|
    ensures exists j :: 0 <= j < |o2.items| && o2.items[j] == o.items[i]
  {
    var it := o.items[i];
    assert ItemFits(it, rows, o.id);
    TotalPermuted(rows, rows2, OfKey(o.id, it.key));
    TotalPermuted(rows, rows2, PlatformOfKey(o.id, it.key));
    KeyHasRow(rows2, o.id, it.key);
    var r :| 0 <= r < |rows2| && In(rows2[r], o.id) && KeyOf(rows2[r]) == it.key;
    var j :| 0 <= j < |o2.items| && o2.items[j].key == KeyOf(rows2[r]);
    assert ItemFits(o2.items[j], rows2, o.id);
    assert o2.items[j] == it;
  }

  /** In an order that is not blocked no item's discount exceeds its gross amount, and shipping is not negative. */
  lemma DiscountWithinGross(o: Order, rows: seq<Row>, i: nat)
    requires Closed(o, rows) && !o.blocked && i < |o.items|
    ensures 0 <= o.items[i].discount <= o.items[i].gross
  {
    var it := o.items[i];
    assert ItemFits(it, rows, o.id);
    KeyHasRow(rows, o.id, it.key);
    var r :| 0 <= r < |rows| && In(rows[r], o.id) && KeyOf(rows[r]) == it.key;
    assert !Blocks(rows, r, o.id);
    assert 0 <= it.key.discount <= it.key.gross;
    Scaled(it.qty, it.key.discount, it.key.gross);
  }

  lemma Scaled(n: nat, a: int, b: int)
    requires 0 <= a <= b
    ensures 0 <= Times(n, a) <= Times(n, b)
  {
  }

  lemma {:induction false} ShippingNotNegative(rows: seq<Row>, id: string)
    requires forall i :: 0 <= i < |rows| && In(rows[i], id) ==> Cents0(rows[i].shipping) >= 0
    ensures Total(rows, ShippingIn(id)) >= 0
  {
    if rows != [] {
      var n := |rows| - 1;
      forall i | 0 <= i < n && In(rows[..n][i], id) ensures Cents0(rows[..n][i].shipping) >= 0 { assert rows[..n][i] == rows[i]; }
      ShippingNotNegative(rows[..n], id);
    }
  }

  // ----- the bill of an order -----

  datatype ShippingConfig = ShippingConfig(enabled: bool, code: string, unit: string)

  /** Some selected order has a shipping charge and there is no product to put it on. */
  predicate ShippingRefused(orders: seq<Order>, config: Option<ShippingConfig>) {
    (exists i :: 0 <= i < |orders| && orders[i].shipping > 0)
    && (config.None? || !config.value.enabled || Text.Trim(config.value.code) == "" || Text.Trim(config.value.unit) == "")
  }

  method ValidateShippingConfig(orders: seq<Order>, config: Option<ShippingConfig>) returns (refused: bool)
    ensures refused == ShippingRefused(orders, config)
    ensures refused <==>
            && (exists i :: 0 <= i < |orders| && orders[i].shipping > 0)
            && (config.Some? && config.value.enabled ==> Text.Trim(config.value.code) == "" || Text.Trim(config.value.unit) == "")
  {
    var needed := false;
    for i := 0 to |orders|
      invariant !needed && forall j :: 0 <= j < i ==> orders[j].shipping <= 0
    {
      if orders[i].shipping > 0 {
        needed := true;
        break;
      }
    }
    if !needed { return false; }
    return config.None? || !config.value.enabled || Text.Trim(config.value.code) == "" || Text.Trim(config.value.unit) == "";
  }

  function ShippingLine(o: Order, config: ShippingConfig): BillItem {
    BillItem("ค่าจัดส่ง Lazada", LAZADA_SHIPPING_SKU, "", "", "", None, Some(Text.Trim(config.code)), Some(Text.Trim(config.unit)),
             1.0, Some(o.shipping), Some(o.shipping), 0, true, None, None, None, None, None, None, None, None, "", "")
  }

  /** The raw amounts stored with the bill; absent fields are None. */
  datatype RawAmounts = RawAmounts(
    orderAmount: Option<Cents>, paid: Option<Cents>, itemGross: Option<Cents>, platform: Option<Cents>, seller: Option<Cents>,
    discount: Option<Cents>, net: Option<Cents>, shipping: Option<Cents>, taxes: Option<Cents>, paymentDiscount: Option<Cents>)

  function RawOf(o: Order): RawAmounts {
    RawAmounts(Some(o.paid), Some(o.paid), Some(o.gross), Some(o.platform), Some(o.seller), Some(o.discount), Some(o.net),
               Some(o.shipping), None, Some(0))
  }

  /** What each item resolves to is arbitrary here; see Conversion. */
  datatype Resolved = Resolved(resolution: Resolution, learnedUnit: string)

  predicate CarriesAmounts(it: Item, bi: BillItem) {
    bi.gross == Some(it.gross) && bi.discount == it.discount && bi.qty == it.qty as real && bi.price == Some(it.price)
  }

  predicate BillOf(o: Order, config: Option<ShippingConfig>, items: seq<BillItem>) {
    && |items| == |o.items| + (if o.shipping > 0 && config.Some? then 1 else 0)
    && (forall i :: 0 <= i < |o.items| ==> CarriesAmounts(o.items[i], items[i]))
    && (o.shipping > 0 && config.Some? ==> items[|o.items|] == ShippingLine(o, config.value))
  }

  /** One item of the order, resolved; its amounts are carried over unchanged. */
  method ConfirmItem(it: Item, resolved: Resolved, products: Products, defaultUnit: string, mapping: MappingMode, mode: ConversionMode)
    returns (bi: BillItem)
    ensures CarriesAmounts(it, bi)
  {
    bi := FromResolution(Source(it.key.product, it.key.sku, "", it.key.variant, "", it.qty as real, it.price, it.gross, it.discount),
                         defaultUnit, resolved.resolution, products, mapping, resolved.learnedUnit, mode);
  }

  method ConfirmItems(o: Order, config: Option<ShippingConfig>, resolve: Item -> Resolved, products: Products,
                      defaultUnit: string, mapping: MappingMode, mode: ConversionMode)
    returns (items: seq<BillItem>, status: Attempts.BillStatus)
    ensures BillOf(o, config, items)
    ensures forall i :: 0 <= i < |o.items| ==>
              && items[i].qty == o.items[i].qty as real && items[i].price == Some(o.items[i].price)
              && items[i].gross == Some(o.items[i].gross) && items[i].discount == o.items[i].discount
    ensures var charged := o.shipping > 0 && config.Some?;
            && |items| == |o.items| + (if charged then 1 else 0)
            && (charged ==>
                  var line := items[|o.items|];
                  && line.sourceSku == "__lazada_shipping__" && line.mapped && line.qty == 1.0 && line.discount == 0
                  && line.itemCode == Some(Text.Trim(config.value.code)) && line.unitCode == Some(Text.Trim(config.value.unit))
                  && line.price == Some(o.shipping) && line.gross == Some(o.shipping))
    ensures status == if (exists i :: 0 <= i < |o.items| && !items[i].mapped) || o.mismatch then Attempts.NeedsReview else Attempts.Pending
  {
    items := [];
    var allMapped := true;
    for i := 0 to |o.items|
      invariant |items| == i
      invariant forall j :: 0 <= j < i ==> CarriesAmounts(o.items[j], items[j])
      invariant allMapped <==> forall j :: 0 <= j < i ==> items[j].mapped
    {
      var bi := ConfirmItem(o.items[i], resolve(o.items[i]), products, defaultUnit, mapping, mode);
      if !bi.mapped { allMapped := false; }
      items := items + [bi];
    }
    if o.shipping > 0 && config.Some? { items := items + [ShippingLine(o, config.value)]; }
    status := if !allMapped || o.mismatch then Attempts.NeedsReview else Attempts.Pending;
  }

  // ----- the report -----

  datatype Detail = Detail(
    orderAmount: Cents, itemGross: Cents, platform: Cents, seller: Cents, net: Cents, shipping: Cents,
    itemized: Cents, unallocated: Cents, smlAmount: Cents)

  function Value(c: Option<Cents>): Cents {
    if c.Some? then c.value else 0
  }

  function LineCents(item: BillItem): Cents {
    RoundToCents(GrossValue(item)) - item.discount
  }

  /** The sum of the positive lines. */
  function SmlAmount(items: seq<BillItem>): Cents {
    if items == [] then 0
    else
      var line := LineCents(items[|items| - 1]);
      SmlAmount(items[..|items| - 1]) + (if line > 0 then line else 0)
  }

  method AuditDetail(raw: RawAmounts, items: seq<BillItem>) returns (d: Detail)
    ensures d.orderAmount == (if raw.orderAmount.Some? then raw.orderAmount.value else Value(raw.paid))
    ensures raw.net.Some? ==> d.itemized == raw.net.value + Value(raw.shipping) + Value(raw.taxes) - Value(raw.paymentDiscount)
    ensures raw.net.None? && raw.discount.Some? ==>
              d.itemized == Value(raw.itemGross) - raw.discount.value + Value(raw.shipping) + Value(raw.taxes) - Value(raw.paymentDiscount)
    ensures raw.net.None? && raw.discount.None? ==>
              d.itemized == Value(raw.itemGross) - Value(raw.platform) - Value(raw.seller)
                            + Value(raw.shipping) + Value(raw.taxes) - Value(raw.paymentDiscount)
    ensures d.itemGross == Value(raw.itemGross) && d.platform == Value(raw.platform) && d.seller == Value(raw.seller)
    ensures d.shipping == Value(raw.shipping)
    ensures d.net == if raw.net.Some? then raw.net.value
                     else d.itemGross - (if raw.discount.Some? then raw.discount.value else d.platform + d.seller)
    ensures d.unallocated == d.orderAmount - d.itemized
    ensures d.smlAmount == SmlAmount(items)
  {
    var orderAmount := Value(raw.orderAmount);
    if raw.orderAmount.None? { orderAmount := Value(raw.paid); }
    var discount := Value(raw.discount);
    if raw.discount.None? { discount := Value(raw.platform) + Value(raw.seller); }
    var net := Value(raw.net);
    if raw.net.None? { net := Value(raw.itemGross) - discount; }
    var itemGross, platform, seller, shipping := Value(raw.itemGross), Value(raw.platform), Value(raw.seller), Value(raw.shipping);
    var itemized := net + Value(raw.shipping) + Value(raw.taxes) - Value(raw.paymentDiscount);
    var sml := 0;
    for i := 0 to |items|
      invariant sml == SmlAmount(items[..i])
    {
      assert items[..i + 1][..i] == items[..i];
      var line := LineCents(items[i]);
      if line > 0 { sml := sml + line; }
    }
    assert items[..|items|] == items;
    d := Detail(orderAmount, itemGross, platform, seller, net, shipping, itemized, orderAmount - itemized, sml);
  }

  lemma {:induction false} SmlOfItems(items: seq<Item>, bis: seq<BillItem>)
    requires |bis| == |items|
    requires forall i :: 0 <= i < |items| ==> CarriesAmounts(items[i], bis[i]) && items[i].discount <= items[i].gross
    ensures SmlAmount(bis) == ItemsGross(items) - ItemsDiscount(items)
  {
    if items != [] {
      var n := |items| - 1;
      assert CarriesAmounts(items[n], bis[n]);
      RoundExact(items[n].gross);
      assert GrossValue(bis[n]) == items[n].gross as real;
      forall i | 0 <= i < n ensures CarriesAmounts(items[..n][i], bis[..n][i]) && items[..n][i].discount <= items[..n][i].gross {
        assert items[..n][i] == items[i] && bis[..n][i] == bis[i];
      }
      SmlOfItems(items[..n], bis[..n]);
    }
  }

  /** A line counts with its gross amount to the cent less its discount, and not at all if that is negative. */
  lemma LineCounts(bis: seq<BillItem>, line: BillItem)
    ensures SmlAmount([]) == 0
    ensures SmlAmount(bis + [line]) ==
            SmlAmount(bis)
            + if line.discount <= RoundToCents(GrossValue(line)) then RoundToCents(GrossValue(line)) - line.discount else 0
  {
    assert (bis + [line])[..|bis|] == bis;
  }

  /** The bill's document amount is the order's net product amount plus shipping, to the cent: no line is clipped. */
  lemma DocumentAmount(o: Order, rows: seq<Row>, config: Option<ShippingConfig>, bis: seq<BillItem>)
    requires Closed(o, rows) && !o.blocked && BillOf(o, config, bis) && !ShippingRefused([o], config)
    ensures SmlAmount(bis) == o.net + o.shipping
  {
    var n := |o.items|;
    forall i | 0 <= i < n ensures CarriesAmounts(o.items[i], bis[..n][i]) && o.items[i].discount <= o.items[i].gross {
      DiscountWithinGross(o, rows, i);
    }
    SmlOfItems(o.items, bis[..n]);
    forall i | 0 <= i < |rows| && In(rows[i], o.id) ensures Cents0(rows[i].shipping) >= 0 { assert !Blocks(rows, i, o.id); }
    ShippingNotNegative(rows, o.id);
    if o.shipping > 0 {
      assert [o][0] == o;
      assert bis == bis[..n] + [ShippingLine(o, config.value)];
      LineCounts(bis[..n], ShippingLine(o, config.value));
      RoundExact(o.shipping);
    } else {
      assert bis == bis[..n];
    }
  }

  /** The report agrees with the import: what is unallocated is the order amount less the document amount. */
  method ReportOfImport(o: Order, config: Option<ShippingConfig>, bis: seq<BillItem>, ghost rows: seq<Row>) returns (d: Detail)
    requires Closed(o, rows) && !o.blocked && BillOf(o, config, bis) && !ShippingRefused([o], config)
    ensures d.orderAmount == o.paid && d.smlAmount == o.net + o.shipping
    ensures d.unallocated == d.orderAmount - d.smlAmount == o.difference
    ensures d.itemGross == o.gross && d.platform == o.platform && d.seller == o.seller
    ensures d.net == o.net && d.shipping == o.shipping
  {
    d := AuditDetail(RawOf(o), bis);
    DocumentAmount(o, rows, config, bis);
  }
}
