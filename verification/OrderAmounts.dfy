/** What a closed Lazada order says about the cells of its rows, written on the cells. */
module OrderAmounts {
  import opened Wrappers
  import opened Money
  import opened Lazada
  import AmountReview
  import Text

  /** Blank cells were read as zero; a cell that is not a number counts as zero too, and blocks the order. */
  function Amount(c: Cell): Cents {
    match c
    case None => 0
    case Some(cents) => cents
  }

  /** What an adjustment cell takes off: only zero and negative amounts do. */
  function Deducted(c: Cell): Cents {
    match c
    case None => 0
    case Some(cents) => if cents > 0 then 0 else -cents
  }

  /** The row belongs to the order and its status lets it in. */
  predicate Counts(r: Row, id: string) {
    r.orderId == id && id != "" && Text.Lower(Text.Trim(r.status)) in ["confirmed", "shipped", "delivered"]
  }

  /** The row agrees with the item in the four texts and the two amounts that make up its key. */
  predicate OfItem(r: Row, k: Lazada.Key) {
    && r.sku == k.sku && r.variant == k.variant && r.product == k.product && r.optionName == k.optionName
    && Amount(r.gross) == k.gross
    && Deducted(r.seller) + Deducted(r.platform) + Deducted(r.wallet) + Deducted(r.bundle) == k.discount
  }

  /** A row whose amounts cannot be used. */
  predicate Unusable(r: Row) {
    || None in [r.gross, r.paid, r.shipping, r.seller, r.platform, r.wallet, r.bundle]
    || Amount(r.seller) > 0 || Amount(r.platform) > 0 || Amount(r.wallet) > 0 || Amount(r.bundle) > 0
    || Amount(r.gross) < 0 || Amount(r.shipping) < 0
    || Deducted(r.seller) + Deducted(r.platform) + Deducted(r.wallet) + Deducted(r.bundle) > Amount(r.gross)
  }

  lemma RowByCells(r: Row, id: string)
    ensures In(r, id) <==> Counts(r, id)
    ensures Cents0(r.gross) == Amount(r.gross) && Cents0(r.paid) == Amount(r.paid) && Cents0(r.shipping) == Amount(r.shipping)
    ensures SellerPart(r) == Deducted(r.seller)
    ensures PlatformPart(r) == Deducted(r.platform) + Deducted(r.wallet) + Deducted(r.bundle)
    ensures Discount(r) == Deducted(r.seller) + Deducted(r.platform) + Deducted(r.wallet) + Deducted(r.bundle)
    ensures KeyOf(r) == Lazada.Key(r.sku, r.variant, r.product, r.optionName, Amount(r.gross), Discount(r))
    ensures RowMismatch(r) <==>
            !(-1 <= Amount(r.gross) - Deducted(r.seller) - Deducted(r.platform) - Deducted(r.wallet) - Deducted(r.bundle)
                    + Amount(r.shipping) - Amount(r.paid) <= 1)
  {
  }

  lemma BadByCells(r: Row)
    ensures Bad(r) <==> Unusable(r)
  {
    RowByCells(r, r.orderId);
    var cells := [r.gross, r.paid, r.shipping, r.seller, r.platform, r.wallet, r.bundle];
    assert cells[0] == r.gross && cells[1] == r.paid && cells[2] == r.shipping && cells[3] == r.seller
        && cells[4] == r.platform && cells[5] == r.wallet && cells[6] == r.bundle;
  }

  // ----- sums -----

  /** Totals are sums: nothing for no rows, the weight for one, additive over parts. */
  lemma TotalIsSum(r: Row, a: seq<Row>, b: seq<Row>, weight: Row -> int)
    ensures Total([], weight) == 0 && Total([r], weight) == weight(r)
    ensures Total(a + b, weight) == Total(a, weight) + Total(b, weight)
  {
    assert [r][..0] == [];
    TotalConcat(a, b, weight);
  }

  lemma {:induction false} TotalSame(rows: seq<Row>, weight: Row -> int, weight2: Row -> int)
    requires forall i :: 0 <= i < |rows| ==> weight(rows[i]) == weight2(rows[i])
    ensures Total(rows, weight) == Total(rows, weight2)
  {
    if rows != [] {
      var n := |rows| - 1;
      forall i | 0 <= i < n ensures weight(rows[..n][i]) == weight2(rows[..n][i]) { assert rows[..n][i] == rows[i]; }
      TotalSame(rows[..n], weight, weight2);
    }
  }

  /** Every amount of a closed order is the sum over the cells of the rows that count for it. */
  lemma AmountsExactly(o: Order, rows: seq<Row>)
    requires Closed(o, rows)
    ensures o.gross == Total(rows, (r: Row) => if Counts(r, o.id) then Amount(r.gross) else 0)
    ensures o.seller == Total(rows, (r: Row) => if Counts(r, o.id) then Deducted(r.seller) else 0)
    ensures o.platform == Total(rows, (r: Row) => if Counts(r, o.id)
                                                  then Deducted(r.platform) + Deducted(r.wallet) + Deducted(r.bundle) else 0)
    ensures o.shipping == Total(rows, (r: Row) => if Counts(r, o.id) then Amount(r.shipping) else 0)
    ensures o.paid == Total(rows, (r: Row) => if Counts(r, o.id) then Amount(r.paid) else 0)
    ensures o.noSku == Total(rows, (r: Row) => if Counts(r, o.id) && r.sku == "" then 1 else 0)
    ensures o.discount == o.seller + o.platform && o.net == o.gross - o.discount
    ensures o.difference == o.paid - (o.net + o.shipping)
  {
    forall r: Row ensures In(r, o.id) <==> Counts(r, o.id) { RowByCells(r, o.id); }
    forall r: Row
      ensures Cents0(r.gross) == Amount(r.gross) && Cents0(r.paid) == Amount(r.paid) && Cents0(r.shipping) == Amount(r.shipping)
      ensures SellerPart(r) == Deducted(r.seller) && PlatformPart(r) == Deducted(r.platform) + Deducted(r.wallet) + Deducted(r.bundle)
    { RowByCells(r, o.id); }
    TotalSame(rows, GrossIn(o.id), (r: Row) => if Counts(r, o.id) then Amount(r.gross) else 0);
    TotalSame(rows, SellerIn(o.id), (r: Row) => if Counts(r, o.id) then Deducted(r.seller) else 0);
    TotalSame(rows, PlatformIn(o.id), (r: Row) => if Counts(r, o.id)
                                                  then Deducted(r.platform) + Deducted(r.wallet) + Deducted(r.bundle) else 0);
    TotalSame(rows, ShippingIn(o.id), (r: Row) => if Counts(r, o.id) then Amount(r.shipping) else 0);
    TotalSame(rows, PaidIn(o.id), (r: Row) => if Counts(r, o.id) then Amount(r.paid) else 0);
    TotalSame(rows, NoSkuIn(o.id), (r: Row) => if Counts(r, o.id) && r.sku == "" then 1 else 0);
  }

  // ----- flags -----

  /** Unflagged means within a cent in total and on every row, however many rows the order has. */
  lemma UnflaggedExactly(o: Order, rows: seq<Row>)
    requires Closed(o, rows)
    ensures !o.mismatch <==>
            && -1 <= o.gross - o.discount + o.shipping - o.paid <= 1
            && forall i :: 0 <= i < |rows| && Counts(rows[i], o.id) ==>
                 var r := rows[i];
                 -1 <= Amount(r.gross) - Deducted(r.seller) - Deducted(r.platform) - Deducted(r.wallet) - Deducted(r.bundle)
                       + Amount(r.shipping) - Amount(r.paid) <= 1
  {
    forall i | 0 <= i < |rows|
      ensures In(rows[i], o.id) <==> Counts(rows[i], o.id)
      ensures var r := rows[i];
              RowMismatch(r) <==>
              !(-1 <= Amount(r.gross) - Deducted(r.seller) - Deducted(r.platform) - Deducted(r.wallet) - Deducted(r.bundle)
                      + Amount(r.shipping) - Amount(r.paid) <= 1)
    { RowByCells(rows[i], o.id); }
  }

  predicate AnyUnusable(rows: seq<Row>, id: string) {
    exists r :: r in rows && Counts(r, id) && Unusable(r)
  }

  /** Two rows of the order disagree in status, time or payment. */
  predicate AnyDisagree(rows: seq<Row>, id: string) {
    exists a, b :: a in rows && b in rows && Counts(a, id) && Counts(b, id)
                   && !(a.status == b.status && a.orderedAt == b.orderedAt && a.payment == b.payment)
  }

  lemma BadIsUnusable(rows: seq<Row>, id: string)
    ensures AmountReview.AnyBad(rows, id) <==> AnyUnusable(rows, id)
  {
    forall r: Row ensures In(r, id) && Bad(r) <==> Counts(r, id) && Unusable(r) {
      RowByCells(r, id);
      BadByCells(r);
    }
  }

  lemma DifferIsDisagree(rows: seq<Row>, id: string)
    ensures AmountReview.AnyDiffer(rows, id) <==> AnyDisagree(rows, id)
  {
    forall r: Row ensures In(r, id) <==> Counts(r, id) { RowByCells(r, id); }
    if AmountReview.AnyDiffer(rows, id) {
      var a, b :| a in rows && b in rows && In(a, id) && In(b, id) && AmountReview.HeadersDiffer(a, b);
      assert Counts(a, id) && Counts(b, id);
    }
    if AnyDisagree(rows, id) {
      var a, b :| a in rows && b in rows && Counts(a, id) && Counts(b, id)
                  && !(a.status == b.status && a.orderedAt == b.orderedAt && a.payment == b.payment);
      assert AmountReview.HeadersDiffer(a, b);
    }
  }

  /** An order is blocked exactly when a row of it is unusable or two of its rows disagree. */
  lemma BlockedExactly(o: Order, rows: seq<Row>)
    requires Closed(o, rows)
    ensures o.blocked <==> AnyUnusable(rows, o.id) || AnyDisagree(rows, o.id)
  {
    AmountReview.BlockedExactly(rows, o.id);
    BadIsUnusable(rows, o.id);
    DifferIsDisagree(rows, o.id);
  }

  // ----- items -----

  /** Every counted row is in exactly one item, which counts the rows agreeing in its key and multiplies their amounts. */
  lemma ItemsExactly(o: Order, rows: seq<Row>, r: Row)
    requires Closed(o, rows) && r in rows && Counts(r, o.id)
    ensures exists i :: 0 <= i < |o.items| && OfItem(r, o.items[i].key)
    ensures forall i, j :: 0 <= i < |o.items| && 0 <= j < |o.items| && OfItem(r, o.items[i].key) && OfItem(r, o.items[j].key) ==> i == j
  {
    RowByCells(r, o.id);
    var n :| 0 <= n < |rows| && rows[n] == r;
    assert In(rows[n], o.id);
  }

  lemma ItemExactly(o: Order, rows: seq<Row>, i: nat)
    requires Closed(o, rows) && i < |o.items|
    ensures var it := o.items[i];
            && it.qty > 0 && it.price == it.key.gross
            && it.qty == Total(rows, (r: Row) => if Counts(r, o.id) && OfItem(r, it.key) then 1 else 0)
            && it.gross == it.qty * it.key.gross && it.discount == it.qty * it.key.discount
            && it.platform == Total(rows, (r: Row) => if Counts(r, o.id) && OfItem(r, it.key)
                                                      then Deducted(r.platform) + Deducted(r.wallet) + Deducted(r.bundle) else 0)
            && it.seller == it.discount - it.platform
  {
    var it := o.items[i];
    assert ItemFits(it, rows, o.id);
    forall r: Row ensures In(r, o.id) && KeyOf(r) == it.key <==> Counts(r, o.id) && OfItem(r, it.key) { RowByCells(r, o.id); }
    forall r: Row ensures PlatformPart(r) == Deducted(r.platform) + Deducted(r.wallet) + Deducted(r.bundle) { RowByCells(r, o.id); }
    TotalSame(rows, OfKey(o.id, it.key), (r: Row) => if Counts(r, o.id) && OfItem(r, it.key) then 1 else 0);
    TotalSame(rows, PlatformOfKey(o.id, it.key),
              (r: Row) => if Counts(r, o.id) && OfItem(r, it.key)
                          then Deducted(r.platform) + Deducted(r.wallet) + Deducted(r.bundle) else 0);
  }

  predicate KeyAmong(items: seq<Lazada.Item>, r: Row) {
    exists i :: 0 <= i < |items| && items[i].key == KeyOf(r)
  }

  function Among(items: seq<Lazada.Item>, id: string): Row -> int {
    (r: Row) => if In(r, id) && KeyAmong(items, r) then 1 else 0
  }

  lemma {:induction false} TotalAdd(rows: seq<Row>, a: Row -> int, b: Row -> int, sum: Row -> int)
    requires forall r :: sum(r) == a(r) + b(r)
    ensures Total(rows, sum) == Total(rows, a) + Total(rows, b)
  {
    if rows != [] { TotalAdd(rows[..|rows| - 1], a, b, sum); }
  }

  lemma {:induction false} QtyAmong(items: seq<Lazada.Item>, rows: seq<Row>, id: string)
    requires forall i :: 0 <= i < |items| ==> items[i].qty == Total(rows, OfKey(id, items[i].key))
    requires forall i, j :: 0 <= i < |items| && 0 <= j < |items| && items[i].key == items[j].key ==> i == j
    ensures ItemsQty(items) == Total(rows, Among(items, id))
  {
    if items == [] {
      TotalSame(rows, Among(items, id), (r: Row) => 0);
      TotalZero(rows);
    } else {
      var n := |items| - 1;
      var front, key := items[..n], items[n].key;
      QtyAmong(front, rows, id);
      forall r: Row ensures Among(items, id)(r) == Among(front, id)(r) + OfKey(id, key)(r) {
        AmongSnoc(items, r);
      }
      TotalAdd(rows, Among(front, id), OfKey(id, key), Among(items, id));
    }
  }

  lemma AmongSnoc(items: seq<Lazada.Item>, r: Row)
    requires items != []
    requires forall i, j :: 0 <= i < |items| && 0 <= j < |items| && items[i].key == items[j].key ==> i == j
    ensures var front, last := items[..|items| - 1], items[|items| - 1];
            && (KeyAmong(items, r) <==> KeyAmong(front, r) || last.key == KeyOf(r))
            && !(KeyAmong(front, r) && last.key == KeyOf(r))
  {
    var n := |items| - 1;
    if KeyAmong(items[..n], r) {
      var i :| 0 <= i < n && items[..n][i].key == KeyOf(r);
      assert items[i].key == KeyOf(r);
    }
    if KeyAmong(items, r) && items[n].key != KeyOf(r) {
      var i :| 0 <= i < |items| && items[i].key == KeyOf(r);
      assert items[..n][i].key == KeyOf(r);
    }
  }

  lemma {:induction false} TotalZero(rows: seq<Row>)
    ensures Total(rows, (r: Row) => 0) == 0
  {
    if rows != [] { TotalZero(rows[..|rows| - 1]); }
  }

  /** No row is lost or counted twice: the item quantities add up to the number of rows that count. */
  lemma QuantityExactly(o: Order, rows: seq<Row>)
    requires Closed(o, rows)
    ensures o.totalQty == Total(rows, (r: Row) => if Counts(r, o.id) then 1 else 0)
  {
    forall i | 0 <= i < |o.items| ensures o.items[i].qty == Total(rows, OfKey(o.id, o.items[i].key)) {
      assert ItemFits(o.items[i], rows, o.id);
    }
    QtyAmong(o.items, rows, o.id);
    forall n | 0 <= n < |rows|
      ensures Among(o.items, o.id)(rows[n]) == if Counts(rows[n], o.id) then 1 else 0
    {
      RowByCells(rows[n], o.id);
    }
    TotalSame(rows, Among(o.items, o.id), (r: Row) => if Counts(r, o.id) then 1 else 0);
  }

  // ----- an order of one row -----

  /** A file of one row gives one order if the row counts and none otherwise. */
  lemma OneRowListed(r: Row)
    ensures Ids([r]) == if Counts(r, r.orderId) then [r.orderId] else []
  {
    RowByCells(r, r.orderId);
    assert [r][..0] == [];
  }

  /** Its order carries the cells over one by one. */
  lemma OneRow(o: Order, r: Row)
    requires Closed(o, [r])
    ensures o.id == r.orderId && o.status == r.status && o.orderedAt == r.orderedAt && o.payment == r.payment
    ensures o.gross == Amount(r.gross) && o.shipping == Amount(r.shipping) && o.paid == Amount(r.paid)
    ensures o.seller == Deducted(r.seller) && o.platform == Deducted(r.platform) + Deducted(r.wallet) + Deducted(r.bundle)
    ensures o.discount == Deducted(r.seller) + Deducted(r.platform) + Deducted(r.wallet) + Deducted(r.bundle)
    ensures |o.items| == 1 && o.totalQty == 1 && OfItem(r, o.items[0].key) && o.items[0].qty == 1
    ensures o.items[0].price == o.items[0].gross == Amount(r.gross) && o.items[0].discount == o.discount
    ensures o.items[0].platform == o.platform && o.items[0].seller == o.seller
    ensures o.blocked <==> Unusable(r)
  {
    FirstSnoc([], r, o.id);
    assert [] + [r] == [r];
    RowByCells(r, o.id);
    OneItem(o, r);
    TotalsSnoc([], r, o.id);
    BlockedExactly(o, [r]);
    assert o.blocked <==> Unusable(r) by { assert r in [r]; }
  }

  lemma OneKey(o: Order, r: Row, j: nat)
    requires Closed(o, [r]) && In(r, o.id) && j < |o.items|
    ensures o.items[j].key == KeyOf(r) && o.items[j].qty == 1
    ensures o.items[j].price == o.items[j].gross == Cents0(r.gross) && o.items[j].discount == Discount(r)
    ensures o.items[j].platform == PlatformPart(r)
  {
    assert ItemFits(o.items[j], [r], o.id);
    assert [] + [r] == [r];
    TotalSnoc([], r, OfKey(o.id, o.items[j].key));
    TotalSnoc([], r, PlatformOfKey(o.id, o.items[j].key));
  }

  lemma OneItem(o: Order, r: Row)
    requires Closed(o, [r]) && In(r, o.id)
    ensures |o.items| == 1 && o.totalQty == 1 && o.items[0].key == KeyOf(r) && o.items[0].qty == 1
    ensures o.items[0].price == o.items[0].gross == Cents0(r.gross) && o.items[0].discount == Discount(r)
    ensures o.items[0].platform == PlatformPart(r)
  {
    assert [r][0] == r;
    var i :| 0 <= i < |o.items| && o.items[i].key == KeyOf([r][0]);
    var last := |o.items| - 1;
    OneKey(o, r, 0);
    OneKey(o, r, last);
    assert o.items[0].key == o.items[last].key;
    assert ItemsQty(o.items) == ItemsQty(o.items[..0]) + 1;
  }

  /** An order of one usable row is left unflagged exactly when the row pays gross less deductions plus shipping, to the cent. */
  lemma OneRowUnflagged(o: Order, r: Row, gross: Cents, shipping: Cents, paid: Cents, seller: Cents, platform: Cents, wallet: Cents, bundle: Cents)
    requires Closed(o, [r]) && !o.blocked
    requires r.gross == Some(gross) && r.shipping == Some(shipping) && r.paid == Some(paid) && r.seller == Some(seller)
    requires r.platform == Some(platform) && r.wallet == Some(wallet) && r.bundle == Some(bundle)
    ensures o.discount == -(seller + platform + wallet + bundle)
    ensures !o.mismatch <==> -1 <= paid - (gross + seller + platform + wallet + bundle + shipping) <= 1
  {
    OneRow(o, r);
    UnflaggedExactly(o, [r]);
    RowByCells(r, o.id);
    assert [r][0] == r;
  }
}
