/** What the ERP is sent and when, said on the items and the payload lines themselves. */
module PostedLines {
  import opened Wrappers
  import opened Money
  import opened Bills
  import opened Attempts
  import opened Client
  import opened Sender
  import opened Protocol
  import opened Guarantees
  import Text

  // ----- one line -----

  /** The SKUs the shipping lines of the three marketplaces are stored under. */
  predicate Shipping(item: BillItem) {
    item.sourceSku == "__shopee_shipping__" || item.sourceSku == "__lazada_shipping__" || item.sourceSku == "__tiktok_shipping__"
  }

  /** Outside a converting tenant, and for shipping, the item's own quantity; otherwise its positive converted one. */
  predicate QuantityDue(item: BillItem, converting: bool, qty: real) {
    if !converting || Shipping(item) then qty == item.qty
    else item.smlQty == Some(qty) && qty > 0.0 && Text.Trim(item.issue) == ""
  }

  /** Code, price, amounts and quantity of a line are the item's. */
  predicate LineDue(item: BillItem, converting: bool, line: Line) {
    && item.mapped && item.itemCode == Some(line.itemCode)
    && line.price == (if item.price.Some? then item.price.value else 0)
    && line.gross == item.gross && line.discount == item.discount
    && QuantityDue(item, converting, line.qty)
  }

  /** The discount is not negative and stays within the gross amount, a tenth of a cent aside. */
  predicate DiscountDue(item: BillItem) {
    var gross := if item.gross.Some? then item.gross.value as real
                 else if item.price.Some? then item.qty * item.price.value as real else 0.0;
    gross >= 0.0 && 0 <= item.discount && item.discount as real <= gross + 0.1
  }

  lemma QuantityExactly(item: BillItem, mode: ConversionMode, qty: real)
    ensures EffectiveSmlQuantity(item, mode) == Ok(qty) <==> QuantityDue(item, mode == Active, qty)
  {
  }

  lemma FaithfulIsDue(item: BillItem, mode: ConversionMode, line: Line)
    ensures Faithful(item, mode, line) <==> LineDue(item, mode == Active, line)
  {
    QuantityExactly(item, mode, line.qty);
  }

  lemma SaneIsDue(item: BillItem)
    ensures AmountsSane(item) <==> DiscountDue(item)
  {
    GrossExactly(item);
  }

  // ----- every POST -----

  /** In every run every POST carries, line by line, what the bill's items say. */
  lemma PostedExactly(p: Policy, s: State, r: nat, i: nat)
    requires Reachable(p, s) && r < |s.requests|
    ensures |s.requests[r].payload.lines| == |s.t.items|
    ensures i < |s.t.items| ==>
              LineDue(s.t.items[i], p.mode == Active, s.requests[r].payload.lines[i]) && DiscountDue(s.t.items[i])
    ensures i < |s.t.items| && s.t.attempt.Some? && s.t.attempt.value.route.SaleOrder? ==>
              s.requests[r].payload.lines[i].unitCode == if s.t.items[i].unitCode.Some? then s.t.items[i].unitCode.value else ""
  {
    OneDocument(p, s);
    var request := s.requests[r];
    assert s.t.attempt.Some? && request.payload == s.t.attempt.value.payload;
    FrozenLines(p, s);
    if i < |s.t.items| {
      assert Faithful(s.t.items[i], p.mode, request.payload.lines[i]) && AmountsSane(s.t.items[i]);
      FaithfulIsDue(s.t.items[i], p.mode, request.payload.lines[i]);
      SaneIsDue(s.t.items[i]);
      assert s.t.attempt.value.route.SaleOrder? ==> UnitsKept(s.t.items, request.payload.lines);
    }
  }

  // ----- when a bill goes -----

  /** The item is coded with an active product. */
  predicate Coded(item: BillItem, catalog: Catalog) {
    item.mapped && item.itemCode.Some? && Text.Trim(item.itemCode.value) != "" && Text.Trim(item.itemCode.value) in catalog
  }

  /** A quantity can be sent for the item. */
  predicate Convertible(item: BillItem, converting: bool) {
    !converting || Shipping(item) || (Text.Trim(item.issue) == "" && item.smlQty.Some? && item.smlQty.value > 0.0)
  }

  function Trimmed(generation: Option<string>): string {
    if generation.None? then "" else Text.Trim(generation.value)
  }

  /** The items name at most one unit-catalog generation. */
  predicate OneCatalog(items: seq<BillItem>) {
    forall i, j :: 0 <= i < |items| && 0 <= j < |items| ==>
      Trimmed(items[i].unitGeneration) == "" || Trimmed(items[j].unitGeneration) == ""
      || Trimmed(items[i].unitGeneration) == Trimmed(items[j].unitGeneration)
  }

  predicate MayStart(view: View, o: Options) {
    (view.row.status.Pending? || view.row.status.Failed? || view.row.status.NeedsReview?) && o.requestOk
  }

  predicate AmountsDue(view: View, reviewRequired: bool) {
    && (reviewRequired ==> view.row.reviewed == Some(AmountFingerprint(view.items)))
    && forall i :: 0 <= i < |view.items| ==> DiscountDue(view.items[i])
  }

  predicate Held(view: View, o: Options) {
    || o.setIssue
    || (exists i :: 0 <= i < |view.items| && !Coded(view.items[i], o.catalog))
    || (exists i :: 0 <= i < |view.items| && !Convertible(view.items[i], o.mode == Active))
  }

  lemma PartsDue(items: seq<BillItem>, o: Options)
    ensures AllSane(items) <==> forall i :: 0 <= i < |items| ==> DiscountDue(items[i])
    ensures AllMapped(items, o.catalog) <==> forall i :: 0 <= i < |items| ==> Coded(items[i], o.catalog)
    ensures AllReady(items, o.mode) <==> forall i :: 0 <= i < |items| ==> Convertible(items[i], o.mode == Active)
    ensures OneGeneration(items) <==> OneCatalog(items)
  {
    forall i | 0 <= i < |items|
      ensures AmountsSane(items[i]) <==> DiscountDue(items[i])
      ensures ItemMapped(items[i], o.catalog) <==> Coded(items[i], o.catalog)
      ensures QuantityReady(items[i], o.mode) <==> Convertible(items[i], o.mode == Active)
    {
      SaneIsDue(items[i]);
    }
    assert forall i :: 0 <= i < |items| ==> Generation(items[i]) == Trimmed(items[i].unitGeneration);
    if AllSane(items) {
      forall i | 0 <= i < |items| ensures DiscountDue(items[i]) { assert AmountsSane(items[i]); }
    }
    if AllMapped(items, o.catalog) {
      forall i | 0 <= i < |items| ensures Coded(items[i], o.catalog) { assert ItemMapped(items[i], o.catalog); }
    }
    if AllReady(items, o.mode) {
      forall i | 0 <= i < |items| ensures Convertible(items[i], o.mode == Active) { assert QuantityReady(items[i], o.mode); }
    }
  }

  /**
   * What becomes of a send, on the bill as loaded: it replays an attempt, goes out with a new one,
   * is held for review, or is refused.
   */
  lemma SendDecidedExactly(view: View, reviewRequired: bool, o: Options)
    ensures Prepare(view, reviewRequired, o) == Replay <==> MayStart(view, o) && view.hasAttempt
    ensures Prepare(view, reviewRequired, o) == Review <==>
            MayStart(view, o) && !view.hasAttempt && AmountsDue(view, reviewRequired) && Held(view, o)
    ensures Prepare(view, reviewRequired, o).Go? <==>
            MayStart(view, o) && !view.hasAttempt && AmountsDue(view, reviewRequired) && !Held(view, o)
            && o.dialogOk && OneCatalog(view.items)
    ensures Prepare(view, reviewRequired, o).Go? ==>
              var d := Prepare(view, reviewRequired, o).draft;
              && d.docNo == d.payload.docNo == o.docNo && d.route == o.route && d.profile == o.profile && d.payload.settings == o.settings
              && |d.payload.lines| == |view.items|
              && forall i :: 0 <= i < |view.items| ==> LineDue(view.items[i], o.mode == Active, d.payload.lines[i])
  {
    PartsDue(view.items, o);
    GoesExactly(view, reviewRequired, o);
    if AllMapped(view.items, o.catalog) { LinesFaithful(view.items, o.mode, o.catalog); }
    if Prepare(view, reviewRequired, o).Go? {
      var d := Prepare(view, reviewRequired, o).draft;
      forall i | 0 <= i < |view.items| ensures LineDue(view.items[i], o.mode == Active, d.payload.lines[i]) {
        assert Faithful(view.items[i], o.mode, d.payload.lines[i]);
        FaithfulIsDue(view.items[i], o.mode, d.payload.lines[i]);
      }
    }
  }

  /** The operator who confirmed saw, line by line, the amounts that are sent. */
  lemma ConfirmedLineByLine(p: Policy, s: State)
    requires Reachable(p, s) && s.t.attempt.Some? && p.reviewRequired
    ensures exists c :: 0 <= c < |s.confirmed| && s.confirmed[c] < s.t.attempt.value.revision < |s.log|
                        && |s.log[s.confirmed[c]].items| == |s.t.items|
                        && forall i :: 0 <= i < |s.t.items| ==> SameAmounts(s.log[s.confirmed[c]].items[i], s.t.items[i])
  {
    ConfirmedAmountsOnly(p, s);
    var c :| 0 <= c < |s.confirmed| && s.confirmed[c] < s.t.attempt.value.revision
             && AmountFingerprint(s.log[s.confirmed[c]].items) == AmountFingerprint(s.t.items);
    FingerprintExactly(s.log[s.confirmed[c]].items, s.t.items);
  }
}
