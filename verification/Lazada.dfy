/** The Lazada order import: rows folded in place into orders and items, in integer cents. */
module Lazada {
  import opened Wrappers
  import opened Money
  import opened Permutations
  import Text

  /** A money cell: blank reads as zero, None is a cell that is not a number. */
  type Cell = Option<Cents>

  datatype Row = Row(
    orderId: string, status: string, orderedAt: string, payment: string,
    sku: string, variant: string, product: string, optionName: string,
    gross: Cell, paid: Cell, shipping: Cell,
    seller: Cell, platform: Cell, wallet: Cell, bundle: Cell)

  /** Rows agreeing in these are one item; the key text joins them with a control character. */
  datatype Key = Key(sku: string, variant: string, product: string, optionName: string, gross: Cents, discount: Cents)

  datatype Item = Item(
    key: Key, price: Cents, qty: nat, gross: Cents, discount: Cents, platform: Cents, seller: Cents)

  datatype Order = Order(
    id: string, status: string, orderedAt: string, payment: string, items: seq<Item>,
    gross: Cents, discount: Cents, platform: Cents, seller: Cents, net: Cents, shipping: Cents, paid: Cents,
    noSku: nat, totalQty: nat, difference: Cents, blocked: bool, mismatch: bool)

  // ----- one row -----

  predicate Allowed(status: string) {
    Text.Lower(Text.Trim(status)) in {"confirmed", "shipped", "delivered"}
  }

  predicate Accepted(r: Row) {
    r.orderId != "" && Allowed(r.status)
  }

  predicate In(r: Row, id: string) {
    Accepted(r) && r.orderId == id
  }

  function Cents0(c: Cell): Cents {
    if c.Some? then c.value else 0
  }

  /** Discounts are exported as negative amounts; anything else adds nothing. */
  function Part(c: Cell): (p: Cents)
    ensures p >= 0
  {
    if c.Some? && c.value <= 0 then -c.value else 0
  }

  predicate BadAdjustment(c: Cell) {
    c.None? || c.value > 0
  }

  function SellerPart(r: Row): Cents { Part(r.seller) }

  function PlatformPart(r: Row): Cents { Part(r.platform) + Part(r.wallet) + Part(r.bundle) }

  function Discount(r: Row): Cents { SellerPart(r) + PlatformPart(r) }

  /** The amounts of the row cannot be used; its order is blocked. */
  predicate Bad(r: Row) {
    || r.gross.None? || r.paid.None? || r.shipping.None?
    || BadAdjustment(r.seller) || BadAdjustment(r.platform) || BadAdjustment(r.wallet) || BadAdjustment(r.bundle)
    || Cents0(r.gross) < 0 || Cents0(r.shipping) < 0 || Discount(r) > Cents0(r.gross)
  }

  function RowGap(r: Row): Cents {
    Cents0(r.gross) - Discount(r) + Cents0(r.shipping) - Cents0(r.paid)
  }

  predicate RowMismatch(r: Row) {
    Abs(RowGap(r)) > 1
  }

  function KeyOf(r: Row): Key {
    Key(r.sku, r.variant, r.product, r.optionName, Cents0(r.gross), Discount(r))
  }

  /** The row's adjustments, as the four columns are run through. */
  method Adjust(r: Row) returns (discount: Cents, platform: Cents, seller: Cents, invalid: bool)
    ensures discount == Discount(r) && platform == PlatformPart(r) && seller == SellerPart(r)
    ensures invalid <==> BadAdjustment(r.seller) || BadAdjustment(r.platform) || BadAdjustment(r.wallet) || BadAdjustment(r.bundle)
  {
    var cells := [r.seller, r.platform, r.wallet, r.bundle];
    discount, platform, seller, invalid := 0, 0, 0, false;
    for i := 0 to 4
      invariant discount == platform + seller
      invariant seller == if i == 0 then 0 else Part(r.seller)
      invariant platform == (if i > 1 then Part(r.platform) else 0) + (if i > 2 then Part(r.wallet) else 0)
                            + (if i > 3 then Part(r.bundle) else 0)
      invariant invalid <==> exists j :: 0 <= j < i && BadAdjustment(cells[j])
    {
      if cells[i].None? || cells[i].value > 0 {
        invalid := true;
      } else {
        var value := -cells[i].value;
        discount := discount + value;
        if i == 0 { seller := seller + value; } else { platform := platform + value; }
      }
    }
    assert cells[0] == r.seller && cells[1] == r.platform && cells[2] == r.wallet && cells[3] == r.bundle;
  }

  // ----- totals over rows -----

  /** The sum of a row weight; every total of an import is one of these. */
  function Total(rows: seq<Row>, weight: Row -> int): int {
    if rows == [] then 0 else Total(rows[..|rows| - 1], weight) + weight(rows[|rows| - 1])
  }

  function GrossIn(id: string): Row -> int { (r: Row) => if In(r, id) then Cents0(r.gross) else 0 }
  function DiscountIn(id: string): Row -> int { (r: Row) => if In(r, id) then Discount(r) else 0 }
  function PlatformIn(id: string): Row -> int { (r: Row) => if In(r, id) then PlatformPart(r) else 0 }
  function SellerIn(id: string): Row -> int { (r: Row) => if In(r, id) then SellerPart(r) else 0 }
  function ShippingIn(id: string): Row -> int { (r: Row) => if In(r, id) then Cents0(r.shipping) else 0 }
  function PaidIn(id: string): Row -> int { (r: Row) => if In(r, id) then Cents0(r.paid) else 0 }
  function NoSkuIn(id: string): Row -> int { (r: Row) => if In(r, id) && r.sku == "" then 1 else 0 }

  /** Rows of one item. */
  function OfKey(id: string, k: Key): Row -> int { (r: Row) => if In(r, id) && KeyOf(r) == k then 1 else 0 }
  function PlatformOfKey(id: string, k: Key): Row -> int {
    (r: Row) => if In(r, id) && KeyOf(r) == k then PlatformPart(r) else 0
  }

  lemma TotalSnoc(rows: seq<Row>, row: Row, weight: Row -> int)
    ensures Total(rows + [row], weight) == Total(rows, weight) + weight(row)
  {
    assert (rows + [row])[..|rows|] == rows;
  }

  lemma {:induction false} TotalConcat(a: seq<Row>, b: seq<Row>, weight: Row -> int)
    ensures Total(a + b, weight) == Total(a, weight) + Total(b, weight)
  {
    if b == [] {
      assert a + b == a;
    } else {
      assert (a + b)[..|a + b| - 1] == a + b[..|b| - 1];
      TotalConcat(a, b[..|b| - 1], weight);
    }
  }

  /** Totals do not depend on the order of the rows. */
  lemma {:induction false} TotalPermuted(a: seq<Row>, b: seq<Row>, weight: Row -> int)
    requires multiset(a) == multiset(b)
    ensures Total(a, weight) == Total(b, weight)
  {
    SameMembers(a, b);
    if a != [] {
      var i := Unpick(a, b);
      TotalPermuted(a[..|a| - 1], b[..i] + b[i + 1..], weight);
      TotalConcat(b[..i], b[i + 1..], weight);
      TotalConcat(b[..i] + [b[i]], b[i + 1..], weight);
      TotalSnoc(b[..i], b[i], weight);
    }
  }

  // ----- items and orders -----

  function FirstOf(rows: seq<Row>, id: string): Option<Row> {
    if rows == [] then None
    else
      var front, last := FirstOf(rows[..|rows| - 1], id), rows[|rows| - 1];
      if front.None? && In(last, id) then Some(last) else front
  }

  /** The order-level columns of a later row that must repeat the first one's. */
  predicate Conflicts(rows: seq<Row>, r: Row) {
    var first := FirstOf(rows, r.orderId);
    first.Some? && (first.value.status != r.status || first.value.orderedAt != r.orderedAt || first.value.payment != r.payment)
  }

  predicate HeaderOf(o: Order, rows: seq<Row>) {
    var first := FirstOf(rows, o.id);
    first.Some? && o.status == first.value.status && o.orderedAt == first.value.orderedAt && o.payment == first.value.payment
  }

  function ItemsGross(items: seq<Item>): Cents {
    if items == [] then 0 else ItemsGross(items[..|items| - 1]) + items[|items| - 1].gross
  }

  function ItemsDiscount(items: seq<Item>): Cents {
    if items == [] then 0 else ItemsDiscount(items[..|items| - 1]) + items[|items| - 1].discount
  }

  function Times(n: nat, x: int): int {
    n * x
  }

  /** An item is its rows: their number, and gross, discount and platform share as sums of theirs. */
  predicate ItemFits(it: Item, rows: seq<Row>, id: string) {
    && it.price == it.key.gross && it.qty >= 1 && it.qty == Total(rows, OfKey(id, it.key))
    && it.gross == Times(it.qty, it.key.gross) && it.discount == Times(it.qty, it.key.discount)
    && it.platform == Total(rows, PlatformOfKey(id, it.key)) && it.discount == it.platform + it.seller
  }

  predicate ItemsFit(items: seq<Item>, rows: seq<Row>, id: string) {
    && (forall i :: 0 <= i < |items| ==> ItemFits(items[i], rows, id))
    && (forall i, j :: 0 <= i < |items| && 0 <= j < |items| && items[i].key == items[j].key ==> i == j)
    && (forall r :: 0 <= r < |rows| && In(rows[r], id) ==> exists i :: 0 <= i < |items| && items[i].key == KeyOf(rows[r]))
  }

  predicate TotalsFit(o: Order, rows: seq<Row>) {
    && o.gross == Total(rows, GrossIn(o.id)) == ItemsGross(o.items)
    && o.discount == Total(rows, DiscountIn(o.id)) == ItemsDiscount(o.items)
    && o.platform == Total(rows, PlatformIn(o.id)) && o.seller == Total(rows, SellerIn(o.id))
    && o.discount == o.platform + o.seller && o.net == o.gross - o.discount
    && o.shipping == Total(rows, ShippingIn(o.id)) && o.paid == Total(rows, PaidIn(o.id))
    && o.noSku == Total(rows, NoSkuIn(o.id))
  }

  predicate Blocks(rows: seq<Row>, i: nat, id: string)
    requires i < |rows|
  {
    In(rows[i], id) && (Bad(rows[i]) || Conflicts(rows, rows[i]))
  }

  predicate AnyBlocks(rows: seq<Row>, id: string) {
    exists i :: 0 <= i < |rows| && Blocks(rows, i, id)
  }

  predicate AnyMismatch(rows: seq<Row>, id: string) {
    exists i :: 0 <= i < |rows| && In(rows[i], id) && RowMismatch(rows[i])
  }

  predicate FlagsFit(o: Order, rows: seq<Row>) {
    (o.blocked <==> AnyBlocks(rows, o.id)) && (o.mismatch <==> AnyMismatch(rows, o.id))
  }

  predicate Fits(o: Order, rows: seq<Row>) {
    HeaderOf(o, rows) && ItemsFit(o.items, rows, o.id) && TotalsFit(o, rows) && FlagsFit(o, rows)
  }

  type Index = map<Key, nat>

  predicate IndexFits(index: Index, items: seq<Item>) {
    && (forall k :: k in index ==> index[k] < |items| && items[index[k]].key == k)
    && (forall i :: 0 <= i < |items| ==> items[i].key in index)
  }

  lemma {:induction false} NoneIn(rows: seq<Row>, id: string, weight: Row -> int)
    requires forall i :: 0 <= i < |rows| ==> !In(rows[i], id)
    requires forall r :: !In(r, id) ==> weight(r) == 0
    ensures Total(rows, weight) == 0 && FirstOf(rows, id) == None
  {
    if rows != [] {
      var n := |rows| - 1;
      forall i | 0 <= i < n ensures !In(rows[..n][i], id) { assert rows[..n][i] == rows[i]; }
      NoneIn(rows[..n], id, weight);
    }
  }

  lemma FirstSnoc(rows: seq<Row>, row: Row, id: string)
    ensures FirstOf(rows + [row], id) ==
            if FirstOf(rows, id).Some? then FirstOf(rows, id) else if In(row, id) then Some(row) else None
  {
    assert (rows + [row])[..|rows|] == rows;
  }

  lemma ItemsSnoc(items: seq<Item>, it: Item)
    ensures ItemsGross(items + [it]) == ItemsGross(items) + it.gross
    ensures ItemsDiscount(items + [it]) == ItemsDiscount(items) + it.discount
  {
    assert (items + [it])[..|items|] == items;
  }

  lemma {:induction false} ItemsUpdate(items: seq<Item>, i: nat, it: Item)
    requires i < |items|
    ensures ItemsGross(items[i := it]) == ItemsGross(items) - items[i].gross + it.gross
    ensures ItemsDiscount(items[i := it]) == ItemsDiscount(items) - items[i].discount + it.discount
    decreases |items|
  {
    var n := |items| - 1;
    if i == n {
      assert items[i := it][..n] == items[..n];
    } else {
      assert items[i := it][..n] == items[..n][i := it];
      ItemsUpdate(items[..n], i, it);
    }
  }

  // ----- adding a row to its order -----

  function FirstItem(row: Row): Item {
    Item(KeyOf(row), Cents0(row.gross), 1, Cents0(row.gross), Discount(row), PlatformPart(row), SellerPart(row))
  }

  function GrownItem(it: Item, row: Row): Item {
    it.(qty := it.qty + 1, gross := it.gross + Cents0(row.gross), discount := it.discount + Discount(row),
        platform := it.platform + PlatformPart(row), seller := it.seller + SellerPart(row))
  }

  /** The row's item has grown where the index says, or was put at the end and indexed. */
  predicate Placed(items: seq<Item>, index: Index, row: Row, items2: seq<Item>, index2: Index) {
    var key := KeyOf(row);
    if key in index then
      index[key] < |items| && items2 == items[index[key] := GrownItem(items[index[key]], row)] && index2 == index
    else
      items2 == items + [FirstItem(row)] && index2 == index[key := |items|]
  }

  method PlaceItem(items: seq<Item>, index: Index, row: Row, discount: Cents, platform: Cents, seller: Cents)
    returns (items2: seq<Item>, index2: Index)
    requires forall k :: k in index ==> index[k] < |items|
    requires discount == Discount(row) && platform == PlatformPart(row) && seller == SellerPart(row)
    ensures Placed(items, index, row, items2, index2)
  {
    var gross := Cents0(row.gross);
    var key := Key(row.sku, row.variant, row.product, row.optionName, gross, discount);
    if key in index {
      var it := items[index[key]];
      it := it.(qty := it.qty + 1, gross := it.gross + gross, discount := it.discount + discount,
                platform := it.platform + platform, seller := it.seller + seller);
      items2, index2 := items[index[key] := it], index;
    } else {
      items2, index2 := items + [Item(key, gross, 1, gross, discount, platform, seller)], index[key := |items|];
    }
  }

  lemma PlacedIndex(items: seq<Item>, index: Index, row: Row, items2: seq<Item>, index2: Index)
    requires Placed(items, index, row, items2, index2) && IndexFits(index, items)
    ensures IndexFits(index2, items2)
  {
  }

  lemma NotIndexed(index: Index, items: seq<Item>, key: Key)
    requires IndexFits(index, items) && key !in index
    ensures forall i :: 0 <= i < |items| ==> items[i].key != key
  {
  }

  /** A row adds one to exactly one item, and every item remains what its rows say. */
  lemma PlacedFits(items: seq<Item>, index: Index, row: Row, items2: seq<Item>, index2: Index, rows: seq<Row>)
    requires Accepted(row) && Placed(items, index, row, items2, index2)
    requires IndexFits(index, items) && ItemsFit(items, rows, row.orderId)
    ensures ItemsFit(items2, rows + [row], row.orderId)
    ensures ItemsGross(items2) == ItemsGross(items) + Cents0(row.gross)
    ensures ItemsDiscount(items2) == ItemsDiscount(items) + Discount(row)
  {
    if KeyOf(row) in index {
      GrownAt(items, index[KeyOf(row)], row, rows);
    } else {
      NotIndexed(index, items, KeyOf(row));
      AppendedFits(items, row, rows);
    }
  }

  lemma GrownAt(items: seq<Item>, i: nat, row: Row, rows: seq<Row>)
    requires Accepted(row) && ItemsFit(items, rows, row.orderId) && i < |items| && items[i].key == KeyOf(row)
    ensures var items2 := items[i := GrownItem(items[i], row)];
            && ItemsFit(items2, rows + [row], row.orderId)
            && ItemsGross(items2) == ItemsGross(items) + Cents0(row.gross)
            && ItemsDiscount(items2) == ItemsDiscount(items) + Discount(row)
  {
    var grown := GrownItem(items[i], row);
    ItemsUpdate(items, i, grown);
    GrownFits(items[i], grown, rows, row);
    OthersFit(items, items[i := grown], i, rows, row);
  }

  lemma AppendedFits(items: seq<Item>, row: Row, rows: seq<Row>)
    requires Accepted(row) && ItemsFit(items, rows, row.orderId)
    requires forall i :: 0 <= i < |items| ==> items[i].key != KeyOf(row)
    ensures var items2 := items + [FirstItem(row)];
            && ItemsFit(items2, rows + [row], row.orderId)
            && ItemsGross(items2) == ItemsGross(items) + Cents0(row.gross)
            && ItemsDiscount(items2) == ItemsDiscount(items) + Discount(row)
  {
    var it := FirstItem(row);
    ItemsSnoc(items, it);
    FirstFits(items, it, rows, row);
    OthersFit(items, items + [it], |items|, rows, row);
  }

  method AddItem(items: seq<Item>, index: Index, row: Row, discount: Cents, platform: Cents, seller: Cents, ghost rows: seq<Row>)
    returns (items2: seq<Item>, index2: Index)
    requires In(row, row.orderId) && ItemsFit(items, rows, row.orderId) && IndexFits(index, items)
    requires discount == Discount(row) && platform == PlatformPart(row) && seller == SellerPart(row)
    ensures ItemsFit(items2, rows + [row], row.orderId) && IndexFits(index2, items2)
    ensures ItemsGross(items2) == ItemsGross(items) + Cents0(row.gross)
    ensures ItemsDiscount(items2) == ItemsDiscount(items) + discount
  {
    items2, index2 := PlaceItem(items, index, row, discount, platform, seller);
    PlacedIndex(items, index, row, items2, index2);
    PlacedFits(items, index, row, items2, index2, rows);
  }

  lemma GrownFits(it: Item, grown: Item, rows: seq<Row>, row: Row)
    requires Accepted(row) && it.key == KeyOf(row) && ItemFits(it, rows, row.orderId)
    requires grown == it.(qty := it.qty + 1, gross := it.gross + it.key.gross, discount := it.discount + it.key.discount,
                          platform := it.platform + PlatformPart(row), seller := it.seller + SellerPart(row))
    ensures ItemFits(grown, rows + [row], row.orderId)
  {
    TotalSnoc(rows, row, OfKey(row.orderId, it.key));
    TotalSnoc(rows, row, PlatformOfKey(row.orderId, it.key));
    Once(it.qty, it.key.gross);
    Once(it.qty, it.key.discount);
  }

  lemma Once(n: nat, x: int)
    ensures Times(n + 1, x) == Times(n, x) + x
  {
  }

  lemma {:induction false} NoKey(rows: seq<Row>, id: string, k: Key)
    requires forall i :: 0 <= i < |rows| && In(rows[i], id) ==> KeyOf(rows[i]) != k
    ensures Total(rows, OfKey(id, k)) == 0 && Total(rows, PlatformOfKey(id, k)) == 0
  {
    if rows != [] {
      var n := |rows| - 1;
      forall i | 0 <= i < n && In(rows[..n][i], id) ensures KeyOf(rows[..n][i]) != k { assert rows[..n][i] == rows[i]; }
      NoKey(rows[..n], id, k);
    }
  }

  lemma FirstFits(items: seq<Item>, it: Item, rows: seq<Row>, row: Row)
    requires Accepted(row) && ItemsFit(items, rows, row.orderId)
    requires forall i :: 0 <= i < |items| ==> items[i].key != KeyOf(row)
    requires it == Item(KeyOf(row), Cents0(row.gross), 1, Cents0(row.gross), Discount(row), PlatformPart(row), SellerPart(row))
    ensures ItemFits(it, rows + [row], row.orderId)
  {
    NoKey(rows, row.orderId, it.key);
    TotalSnoc(rows, row, OfKey(row.orderId, it.key));
    TotalSnoc(rows, row, PlatformOfKey(row.orderId, it.key));
  }

  lemma ItemAside(it: Item, rows: seq<Row>, row: Row, id: string)
    requires ItemFits(it, rows, id) && (!In(row, id) || it.key != KeyOf(row))
    ensures ItemFits(it, rows + [row], id)
  {
    TotalSnoc(rows, row, OfKey(id, it.key));
    TotalSnoc(rows, row, PlatformOfKey(id, it.key));
  }

  /** Only position `at` carries the row's key. */
  lemma OthersFit(items: seq<Item>, items2: seq<Item>, at: nat, rows: seq<Row>, row: Row)
    requires Accepted(row) && ItemsFit(items, rows, row.orderId)
    requires |items| <= |items2| <= |items| + 1 && at < |items2| && (|items2| > |items| ==> at == |items|)
    requires forall i :: 0 <= i < |items| && i != at ==> items2[i] == items[i]
    requires at < |items| ==> items[at].key == items2[at].key
    requires items2[at].key == KeyOf(row) && ItemFits(items2[at], rows + [row], row.orderId)
    requires forall i :: 0 <= i < |items| && i != at ==> items[i].key != KeyOf(row)
    ensures ItemsFit(items2, rows + [row], row.orderId)
  {
    var all := rows + [row];
    forall i | 0 <= i < |items2| ensures ItemFits(items2[i], all, row.orderId) {
      if i != at { ItemAside(items[i], rows, row, row.orderId); }
    }
    forall r | 0 <= r < |all| && In(all[r], row.orderId)
      ensures exists i :: 0 <= i < |items2| && items2[i].key == KeyOf(all[r])
    {
      if r < |rows| {
        var i :| 0 <= i < |items| && items[i].key == KeyOf(rows[r]);
        assert items2[i].key == items[i].key;
      } else {
        assert items2[at].key == KeyOf(all[r]);
      }
    }
  }

  lemma HasFirst(rows: seq<Row>, i: nat, id: string)
    requires i < |rows| && In(rows[i], id)
    ensures FirstOf(rows, id).Some?
    decreases |rows|
  {
    var n := |rows| - 1;
    if i < n {
      assert rows[..n][i] == rows[i];
      HasFirst(rows[..n], i, id);
    }
  }

  /** A later row changes no verdict on an earlier one. */
  lemma BlocksStable(rows: seq<Row>, row: Row, i: nat, id: string)
    requires i < |rows|
    ensures Blocks(rows + [row], i, id) <==> Blocks(rows, i, id)
  {
    if In(rows[i], id) {
      HasFirst(rows, i, id);
      FirstSnoc(rows, row, id);
    }
  }

  lemma AnyBlocksSnoc(rows: seq<Row>, row: Row, id: string)
    ensures AnyBlocks(rows + [row], id) <==> AnyBlocks(rows, id) || Blocks(rows + [row], |rows|, id)
  {
    var all := rows + [row];
    if AnyBlocks(rows, id) {
      var i :| 0 <= i < |rows| && Blocks(rows, i, id);
      BlocksStable(rows, row, i, id);
      assert Blocks(all, i, id);
    }
    if AnyBlocks(all, id) {
      var i :| 0 <= i < |all| && Blocks(all, i, id);
      if i < |rows| { BlocksStable(rows, row, i, id); }
    }
  }

  lemma AnyMismatchSnoc(rows: seq<Row>, row: Row, id: string)
    ensures AnyMismatch(rows + [row], id) <==> AnyMismatch(rows, id) || (In(row, id) && RowMismatch(row))
  {
    var all := rows + [row];
    if AnyMismatch(rows, id) {
      var i :| 0 <= i < |rows| && In(rows[i], id) && RowMismatch(rows[i]);
      assert all[i] == rows[i];
    }
    if In(row, id) && RowMismatch(row) { assert all[|rows|] == row; }
  }

  lemma TotalsSnoc(rows: seq<Row>, row: Row, id: string)
    ensures Total(rows + [row], GrossIn(id)) == Total(rows, GrossIn(id)) + GrossIn(id)(row)
    ensures Total(rows + [row], DiscountIn(id)) == Total(rows, DiscountIn(id)) + DiscountIn(id)(row)
    ensures Total(rows + [row], PlatformIn(id)) == Total(rows, PlatformIn(id)) + PlatformIn(id)(row)
    ensures Total(rows + [row], SellerIn(id)) == Total(rows, SellerIn(id)) + SellerIn(id)(row)
    ensures Total(rows + [row], ShippingIn(id)) == Total(rows, ShippingIn(id)) + ShippingIn(id)(row)
    ensures Total(rows + [row], PaidIn(id)) == Total(rows, PaidIn(id)) + PaidIn(id)(row)
    ensures Total(rows + [row], NoSkuIn(id)) == Total(rows, NoSkuIn(id)) + NoSkuIn(id)(row)
  {
    TotalSnoc(rows, row, GrossIn(id));
    TotalSnoc(rows, row, DiscountIn(id));
    TotalSnoc(rows, row, PlatformIn(id));
    TotalSnoc(rows, row, SellerIn(id));
    TotalSnoc(rows, row, ShippingIn(id));
    TotalSnoc(rows, row, PaidIn(id));
    TotalSnoc(rows, row, NoSkuIn(id));
  }

  /** An order is untouched by rows of other orders and by rows that are not accepted. */
  lemma FitsAside(o: Order, rows: seq<Row>, row: Row)
    requires Fits(o, rows) && !In(row, o.id)
    ensures Fits(o, rows + [row])
  {
    var all := rows + [row];
    FirstSnoc(rows, row, o.id);
    TotalsSnoc(rows, row, o.id);
    AnyBlocksSnoc(rows, row, o.id);
    AnyMismatchSnoc(rows, row, o.id);
    forall i | 0 <= i < |o.items| ensures ItemFits(o.items[i], all, o.id) { ItemAside(o.items[i], rows, row, o.id); }
    forall r | 0 <= r < |all| && In(all[r], o.id) ensures exists i :: 0 <= i < |o.items| && o.items[i].key == KeyOf(all[r]) {
      assert all[r] == rows[r];
    }
  }

  function EmptyOrder(r: Row): Order {
    Order(r.orderId, r.status, r.orderedAt, r.payment, [], 0, 0, 0, 0, 0, 0, 0, 0, 0, 0, false, false)
  }

  lemma EmptyFits(rows: seq<Row>, row: Row)
    requires Accepted(row) && forall i :: 0 <= i < |rows| ==> !In(rows[i], row.orderId)
    ensures var o := EmptyOrder(row); ItemsFit(o.items, rows, o.id) && TotalsFit(o, rows) && FlagsFit(o, rows)
    ensures HeaderOf(EmptyOrder(row), rows + [row]) && !Conflicts(rows + [row], row)
  {
    var id := row.orderId;
    NoneIn(rows, id, GrossIn(id));
    NoneIn(rows, id, DiscountIn(id));
    NoneIn(rows, id, PlatformIn(id));
    NoneIn(rows, id, SellerIn(id));
    NoneIn(rows, id, ShippingIn(id));
    NoneIn(rows, id, PaidIn(id));
    NoneIn(rows, id, NoSkuIn(id));
    FirstSnoc(rows, row, id);
  }

  predicate Grown(o: Order, o2: Order, row: Row) {
    var gross, discount := Cents0(row.gross), Discount(row);
    && o2.id == o.id && o2.status == o.status && o2.orderedAt == o.orderedAt && o2.payment == o.payment
    && o2.gross == o.gross + gross && o2.discount == o.discount + discount
    && o2.platform == o.platform + PlatformPart(row) && o2.seller == o.seller + SellerPart(row)
    && o2.net == o.net + (gross - discount) && o2.shipping == o.shipping + Cents0(row.shipping)
    && o2.paid == o.paid + Cents0(row.paid) && o2.noSku == (if row.sku == "" then o.noSku + 1 else o.noSku)
  }

  lemma GrownFitsRows(o: Order, o2: Order, rows: seq<Row>, row: Row)
    requires In(row, o.id) && HeaderOf(o, rows + [row]) && TotalsFit(o, rows) && Grown(o, o2, row)
    requires ItemsFit(o2.items, rows + [row], o.id)
    requires ItemsGross(o2.items) == ItemsGross(o.items) + Cents0(row.gross)
    requires ItemsDiscount(o2.items) == ItemsDiscount(o.items) + Discount(row)
    requires o2.blocked <==> Conflicts(rows + [row], row) || AnyBlocks(rows, o.id) || Bad(row)
    requires o2.mismatch <==> AnyMismatch(rows, o.id) || RowMismatch(row)
    ensures Fits(o2, rows + [row])
  {
    TotalsSnoc(rows, row, o.id);
    AnyBlocksSnoc(rows, row, o.id);
    AnyMismatchSnoc(rows, row, o.id);
  }

  /** The running totals of the order. */
  method Accumulate(o: Order, items: seq<Item>, row: Row, discount: Cents, platform: Cents, seller: Cents, blocked: bool, mismatch: bool)
    returns (o2: Order)
    requires discount == Discount(row) && platform == PlatformPart(row) && seller == SellerPart(row)
    ensures Grown(o, o2, row) && o2.items == items && o2.blocked == blocked && o2.mismatch == mismatch
  {
    var gross := Cents0(row.gross);
    o2 := o.(items := items, blocked := blocked, mismatch := mismatch,
             noSku := if row.sku == "" then o.noSku + 1 else o.noSku,
             gross := o.gross + gross, discount := o.discount + discount, platform := o.platform + platform,
             seller := o.seller + seller, net := o.net + (gross - discount), shipping := o.shipping + Cents0(row.shipping),
             paid := o.paid + Cents0(row.paid));
  }

  /** Folds a row into its order, whose order-level columns were compared before. */
  method AddRow(o: Order, index: Index, row: Row, ghost rows: seq<Row>) returns (o2: Order, index2: Index)
    requires In(row, o.id) && HeaderOf(o, rows + [row])
    requires ItemsFit(o.items, rows, o.id) && TotalsFit(o, rows) && IndexFits(index, o.items)
    requires o.blocked <==> Conflicts(rows + [row], row) || AnyBlocks(rows, o.id)
    requires o.mismatch <==> AnyMismatch(rows, o.id)
    ensures o2.id == o.id && Fits(o2, rows + [row]) && IndexFits(index2, o2.items)
  {
    var discount, platform, seller, invalid := Adjust(row);
    var gross, paid, shipping := Cents0(row.gross), Cents0(row.paid), Cents0(row.shipping);
    var blocked, mismatch := o.blocked, o.mismatch;
    if row.gross.None? || row.paid.None? || row.shipping.None? || invalid || gross < 0 || shipping < 0 || discount > gross {
      blocked := true;
    }
    if Abs(gross - discount + shipping - paid) > 1 { mismatch := true; }
    var items;
    items, index2 := AddItem(o.items, index, row, discount, platform, seller, rows);
    o2 := Accumulate(o, items, row, discount, platform, seller, blocked, mismatch);
    GrownFitsRows(o, o2, rows, row);
  }

  // ----- the whole file -----

  /** Order numbers in the order of their first accepted rows. */
  function Ids(rows: seq<Row>): seq<string> {
    if rows == [] then []
    else
      var front, last := Ids(rows[..|rows| - 1]), rows[|rows| - 1];
      if Accepted(last) && last.orderId !in front then front + [last.orderId] else front
  }

  predicate Seen(rows: seq<Row>, id: string) {
    exists i :: 0 <= i < |rows| && In(rows[i], id)
  }

  lemma SeenSnoc(rows: seq<Row>, row: Row, id: string)
    ensures Seen(rows + [row], id) <==> Seen(rows, id) || In(row, id)
  {
    var all := rows + [row];
    if Seen(rows, id) {
      var i :| 0 <= i < |rows| && In(rows[i], id);
      assert In(all[i], id);
    }
    if In(row, id) { assert In(all[|rows|], id); }
  }

  lemma IdsSnoc(rows: seq<Row>, row: Row)
    ensures Ids(rows + [row]) ==
            if Accepted(row) && row.orderId !in Ids(rows) then Ids(rows) + [row.orderId] else Ids(rows)
  {
    assert (rows + [row])[..|rows|] == rows;
  }

  lemma {:induction false} IdsHold(rows: seq<Row>, id: string)
    ensures id in Ids(rows) <==> Seen(rows, id)
  {
    if rows != [] {
      var front, last := rows[..|rows| - 1], rows[|rows| - 1];
      assert rows == front + [last];
      IdsHold(front, id);
      SeenSnoc(front, last, id);
    }
  }

  lemma {:induction false} IdsDistinct(rows: seq<Row>)
    ensures forall i, j :: 0 <= i < j < |Ids(rows)| ==> Ids(rows)[i] != Ids(rows)[j]
  {
    if rows != [] { IdsDistinct(rows[..|rows| - 1]); }
  }

  predicate Entry(o: Order, index: Index, id: string, rows: seq<Row>) {
    o.id == id && Fits(o, rows) && IndexFits(index, o.items)
  }

  lemma EntryAside(o: Order, index: Index, id: string, rows: seq<Row>, row: Row)
    requires Entry(o, index, id, rows) && !In(row, id)
    ensures Entry(o, index, id, rows + [row])
  {
    FitsAside(o, rows, row);
  }

  ghost predicate TableKeys(orders: map<string, Order>, index: map<string, Index>, keys: seq<string>, rows: seq<Row>) {
    keys == Ids(rows) && (forall id :: id in orders <==> id in keys) && (forall id :: id in index <==> id in keys)
  }

  predicate TableEntries(orders: map<string, Order>, index: map<string, Index>, rows: seq<Row>) {
    forall id :: id in orders ==> id in index && Entry(orders[id], index[id], id, rows)
  }

  lemma RowSkipped(orders: map<string, Order>, index: map<string, Index>, keys: seq<string>, rows: seq<Row>, row: Row)
    requires TableKeys(orders, index, keys, rows) && TableEntries(orders, index, rows) && !Accepted(row)
    ensures TableKeys(orders, index, keys, rows + [row]) && TableEntries(orders, index, rows + [row])
  {
    IdsSnoc(rows, row);
    forall id | id in orders ensures Entry(orders[id], index[id], id, rows + [row]) {
      EntryAside(orders[id], index[id], id, rows, row);
    }
  }

  lemma EntriesAdded(orders: map<string, Order>, index: map<string, Index>, rows: seq<Row>, row: Row, o: Order, idx: Index)
    requires TableEntries(orders, index, rows) && Accepted(row) && Entry(o, idx, row.orderId, rows + [row])
    ensures TableEntries(orders[row.orderId := o], index[row.orderId := idx], rows + [row])
  {
    forall id | id in orders && id != row.orderId ensures Entry(orders[id], index[id], id, rows + [row]) {
      EntryAside(orders[id], index[id], id, rows, row);
    }
  }

  lemma KeysAdded(orders: map<string, Order>, index: map<string, Index>, keys: seq<string>, rows: seq<Row>, row: Row, o: Order, idx: Index)
    requires TableKeys(orders, index, keys, rows) && Accepted(row)
    ensures TableKeys(orders[row.orderId := o], index[row.orderId := idx],
                      if row.orderId in orders then keys else keys + [row.orderId], rows + [row])
  {
    IdsSnoc(rows, row);
  }

  lemma HeaderGrows(o: Order, rows: seq<Row>, row: Row)
    requires HeaderOf(o, rows) && In(row, o.id)
    ensures HeaderOf(o, rows + [row])
    ensures Conflicts(rows + [row], row) <==>
            o.status != row.status || o.orderedAt != row.orderedAt || o.payment != row.payment
  {
    FirstSnoc(rows, row, o.id);
  }

  lemma NewId(rows: seq<Row>, id: string)
    requires id !in Ids(rows)
    ensures forall i :: 0 <= i < |rows| ==> !In(rows[i], id)
  {
    IdsHold(rows, id);
  }

  /** The row's order, new or compared with its first row, with the row folded in. */
  method TakeRow(known: Option<Order>, idx: Index, row: Row, ghost seen: seq<Row>) returns (order: Order, idx2: Index)
    requires Accepted(row)
    requires known.Some? ==> Entry(known.value, idx, row.orderId, seen)
    requires known.None? ==> forall i :: 0 <= i < |seen| ==> !In(seen[i], row.orderId)
    ensures Entry(order, idx2, row.orderId, seen + [row])
  {
    if known.None? {
      EmptyFits(seen, row);
      order, idx2 := AddRow(EmptyOrder(row), map[], row, seen);
    } else {
      order := known.value;
      HeaderGrows(order, seen, row);
      if order.status != row.status || order.orderedAt != row.orderedAt || order.payment != row.payment {
        order := order.(blocked := true);
      }
      order, idx2 := AddRow(order, idx, row, seen);
    }
  }

  method ReadRows(rows: seq<Row>) returns (orders: map<string, Order>, keys: seq<string>, skipped: nat)
    ensures keys == Ids(rows) && forall id :: id in orders <==> id in keys
    ensures forall id :: id in orders ==> orders[id].id == id && Fits(orders[id], rows)
  {
    var index: map<string, Index> := map[];
    orders, keys, skipped := map[], [], 0;
    for i := 0 to |rows|
      invariant TableKeys(orders, index, keys, rows[..i]) && TableEntries(orders, index, rows[..i])
    {
      var row := rows[i];
      ghost var seen := rows[..i];
      assert rows[..i + 1] == seen + [row];
      if row.orderId == "" {
        RowSkipped(orders, index, keys, seen, row);
        continue;
      }
      if !Allowed(row.status) {
        skipped := skipped + 1;
        RowSkipped(orders, index, keys, seen, row);
        continue;
      }
      var id := row.orderId;
      if id !in orders { NewId(seen, id); }
      var order, idx := TakeRow(if id in orders then Some(orders[id]) else None, if id in index then index[id] else map[], row, seen);
      KeysAdded(orders, index, keys, seen, row, order, idx);
      EntriesAdded(orders, index, seen, row, order, idx);
      if id !in orders { keys := keys + [id]; }
      orders, index := orders[id := order], index[id := idx];
    }
    assert rows[..|rows|] == rows;
  }

  /** The closing pass over an order: item quantity, payment difference, and the flag on it. */
  predicate Closed(o: Order, rows: seq<Row>) {
    && HeaderOf(o, rows) && ItemsFit(o.items, rows, o.id) && TotalsFit(o, rows)
    && (o.blocked <==> AnyBlocks(rows, o.id))
    && o.difference == o.paid - (o.gross - o.discount + o.shipping)
    && (o.mismatch <==> AnyMismatch(rows, o.id) || Abs(o.difference) > 1)
    && o.totalQty == ItemsQty(o.items)
  }

  function ItemsQty(items: seq<Item>): nat {
    if items == [] then 0 else ItemsQty(items[..|items| - 1]) + items[|items| - 1].qty
  }

  method CloseOrder(o: Order, ghost rows: seq<Row>) returns (closed: Order)
    requires Fits(o, rows)
    ensures closed.id == o.id && closed.items == o.items && Closed(closed, rows)
  {
    var qty := 0;
    for i := 0 to |o.items|
      invariant qty == ItemsQty(o.items[..i])
    {
      assert o.items[..i + 1][..i] == o.items[..i];
      qty := qty + o.items[i].qty;
    }
    assert o.items[..|o.items|] == o.items;
    var difference := o.paid - (o.gross - o.discount + o.shipping);
    closed := o.(totalQty := qty, difference := difference, mismatch := o.mismatch || Abs(difference) > 1);
    assert TotalsFit(closed, rows);
  }

  predicate ClosedAll(orders: seq<Order>, keys: seq<string>, rows: seq<Row>) {
    |orders| == |keys| && forall k :: 0 <= k < |orders| ==> orders[k].id == keys[k] && Closed(orders[k], rows)
  }

  lemma ClosedSnoc(orders: seq<Order>, keys: seq<string>, o: Order, rows: seq<Row>)
    requires ClosedAll(orders, keys, rows) && Closed(o, rows)
    ensures ClosedAll(orders + [o], keys + [o.id], rows)
  {
  }

  /** Every order of the file, in the order of first appearance, as its rows say. */
  method ParseLazada(rows: seq<Row>) returns (orders: seq<Order>, skipped: nat)
    ensures ClosedAll(orders, Ids(rows), rows)
  {
    var table, keys;
    table, keys, skipped := ReadRows(rows);
    orders := CloseAll(table, keys, rows);
  }

  method CloseAll(table: map<string, Order>, keys: seq<string>, ghost rows: seq<Row>) returns (orders: seq<Order>)
    requires forall k :: k in keys ==> k in table && table[k].id == k && Fits(table[k], rows)
    ensures ClosedAll(orders, keys, rows)
  {
    orders := [];
    for k := 0 to |keys|
      invariant ClosedAll(orders, keys[..k], rows)
    {
      assert keys[k] in keys;
      var order := CloseOrder(table[keys[k]], rows);
      ClosedSnoc(orders, keys[..k], order, rows);
      assert keys[..k + 1] == keys[..k] + [order.id];
      orders := orders + [order];
    }
    assert keys[..|keys|] == keys;
  }
}
