/** The converted quantity through every operator edit and into every POST. */
module Quantities {
  import opened Wrappers
  import opened Bills
  import opened Attempts
  import opened Client
  import opened Sender
  import opened Protocol
  import opened Safety
  import opened Guarantees
  import opened PostedLines
  import Text

  /** The snapshot's quantities are the item's own quantity times its multiplier and unit factor. */
  predicate Exact(item: BillItem) {
    item.multiplier.Some? ==>
      && (item.smlQty.Some? ==> item.smlQty.value == SmlQuantity(item.qty, item.multiplier.value))
      && (item.baseQty.Some? && item.stand.Some? && item.divide.Some? && item.divide.value > 0.0 ==>
            item.baseQty.value == BaseQuantity(item.qty, item.multiplier.value, item.stand.value, item.divide.value))
  }

  predicate AllExact(items: seq<BillItem>) {
    forall i :: 0 <= i < |items| ==> Exact(items[i])
  }

  // ----- single edits -----

  lemma RecomputedExact(p: BillItem)
    ensures Exact(Recomputed(p))
    ensures GrossValue(Recomputed(p)) == Money.RoundToCents(Extended(p.qty, p.price)) as real
  {
  }

  lemma OtherFieldsExact(item: BillItem, c: ItemChange)
    requires Exact(item) && c.qty.None? && c.price.None?
    ensures Exact(SetFields(item, c))
  {
  }

  lemma IssueAside(item: BillItem, issue: string)
    ensures Exact(item.(issue := issue)) <==> Exact(item)
  {
  }

  /** What an operator sets is set, the rest of the line stays, and the line is mapped when it is given a code. */
  lemma SetFieldsSets(item: BillItem, c: ItemChange)
    ensures var e := SetFields(item, c);
            && e.qty == (if c.qty.Some? then c.qty.value else item.qty)
            && e.price == (if c.price.Some? then c.price else item.price)
            && e.discount == (if c.discount.Some? then c.discount.value else item.discount)
            && e.unitCode == (if c.unitCode.Some? then c.unitCode else item.unitCode)
            && e.itemCode == (if c.itemCode.Some? then c.itemCode else item.itemCode)
            && e.mapped == (if c.itemCode.Some? then c.itemCode.value != "" else item.mapped)
            && e.(qty := item.qty, price := item.price, discount := item.discount, unitCode := item.unitCode,
                  itemCode := item.itemCode, mapped := item.mapped) == item
  {
  }

  /** Apart from the columns set, a change touches the gross amount, the converted quantities and the issue, and those only when it has to. */
  lemma ChangeTouches(item: BillItem, c: ItemChange)
    ensures var p, e := SetFields(item, c), ChangedItem(item, c);
            && e.(gross := p.gross, smlQty := p.smlQty, baseQty := p.baseQty, issue := p.issue) == p
            && (c.qty.None? && c.price.None? ==> e.gross == p.gross && e.smlQty == p.smlQty && e.baseQty == p.baseQty)
            && (c.itemCode.None? && c.unitCode.None? ==> e.issue == p.issue)
  {
  }

  /** A manual change keeps the snapshot exact, and a changed quantity or price makes the gross amount their product, rounded. */
  lemma ChangeKeepsExact(item: BillItem, c: ItemChange)
    requires Exact(item)
    ensures Exact(ChangedItem(item, c))
    ensures c.qty.Some? || c.price.Some? ==>
              var e := ChangedItem(item, c);
              e.gross == Some(Money.RoundToCents(Extended(e.qty, e.price)))
              && (e.multiplier.Some? ==> e.smlQty == Some(SmlQuantity(e.qty, e.multiplier.value)))
  {
    var p := SetFields(item, c);
    if c.qty.Some? || c.price.Some? { RecomputedExact(p); } else { OtherFieldsExact(item, c); }
    IssueAside(if c.qty.Some? || c.price.Some? then Recomputed(p) else p, "manual_conversion_review_required");
  }

  /** A line whose product or unit was changed by hand is not sent before its master is applied again. */
  lemma RecodedIsHeld(item: BillItem, c: ItemChange)
    requires c.itemCode.Some? || c.unitCode.Some?
    ensures EffectiveSmlQuantity(ChangedItem(item, c), Active).Ok? <==> ReservedSku(item.sourceSku)
  {
    Text.TrimKeeps("manual_conversion_review_required", 0);
  }

  /** Applying a master takes over its product, unit, factors and version, and leaves what the marketplace sold. */
  lemma MasterSets(item: BillItem, m: Master, enforce: bool)
    ensures var e := MasteredItem(item, m, enforce);
            && e.itemCode == Some(m.itemCode) && e.unitCode == Some(m.unitCode) && e.aliasId == Some(m.id)
            && e.multiplier == Some(m.multiplier) && e.stand == m.stand && e.divide == m.divide
            && e.mappingRevision == Some(m.revision) && e.unitGeneration == m.generation && e.setHash == m.setHash
            && e.qty == item.qty && e.price == item.price && e.discount == item.discount && e.rawName == item.rawName
            && e.sourceSku == item.sourceSku && e.sourceVariantId == item.sourceVariantId
            && (item.gross.Some? ==> e.gross == item.gross)
            && (item.gross.None? ==> e.gross == Some(Money.RoundToCents(Extended(item.qty, item.price))))
            && (e.mapped <==> !enforce || (m.status == "ready" && m.salesEnabled))
            && (e.issue == "" <==> m.status == "ready" && m.salesEnabled)
  {
  }

  /** Applying a master keeps the snapshot exact; a ready one makes the line sendable again, with its own multiple. */
  lemma MasterRestores(item: BillItem, m: Master, enforce: bool)
    requires !DividesByZero(m)
    ensures Exact(MasteredItem(item, m, enforce))
    ensures MasterIssue(m) == "" && m.stand.Some? && m.divide.Some? && m.multiplier >= 1 && item.qty > 0.0
            && !ReservedSku(item.sourceSku) ==>
              MasteredItem(item, m, enforce).mapped
              && EffectiveSmlQuantity(MasteredItem(item, m, enforce), Active) == Ok(SmlQuantity(item.qty, m.multiplier))
    ensures MasterIssue(m) != "" && enforce ==> !MasteredItem(item, m, enforce).mapped
  {
    if item.qty > 0.0 && m.multiplier >= 1 { assert SmlQuantity(item.qty, m.multiplier) > 0.0; }
  }

  /** An amount edit drops the confirmation, so a review-required bill is refused until it is confirmed anew. */
  lemma EditNeedsConfirmation(t: Tables, at: nat, c: ItemChange, o: Options)
    requires Editable(t) && at < |t.items| && (c.qty.Some? || c.price.Some? || c.discount.Some?)
    ensures var t2 := UpdateItem(t, at, c);
            Prepare(View(t2.row, false, t2.items), true, o) == Refused
  {
  }

  // ----- whole runs -----

  predicate ExactStep(e: Step) {
    e.InsertStep? ==> Exact(e.item)
  }

  lemma OperateKeepsExact(s: State, e: Step)
    requires Edits(e) && AllExact(s.t.items) && ExactStep(e)
    ensures AllExact(Operate(s, e).t.items)
  {
    if e.ChangeStep? && e.at < |s.t.items| {
      ChangeKeepsExact(s.t.items[e.at], e.change);
    } else if e.MasterStep? && e.at < |s.t.items| && !DividesByZero(e.master) {
      MasterRestores(s.t.items[e.at], e.master, e.enforce);
    }
  }

  lemma {:induction false} RunKeepsExact(p: Policy, s: State, steps: seq<Step>)
    requires AllExact(s.t.items) && forall i :: 0 <= i < |steps| ==> ExactStep(steps[i])
    ensures AllExact(Run(p, s, steps).t.items)
    decreases |steps|
  {
    if steps != [] {
      if Edits(steps[0]) { OperateKeepsExact(s, steps[0]); } else { ActKeepsItems(p, s, steps[0]); }
      RunKeepsExact(p, Next(p, s, steps[0]), steps[1..]);
    }
  }

  /** The quantity a POST has to carry for an item of a converting bill. */
  predicate Due(item: BillItem, line: Line) {
    item.multiplier.Some? && !Shipping(item) ==> line.qty == item.qty * item.multiplier.value as real
  }

  lemma DueWhenExact(item: BillItem, line: Line)
    requires Exact(item) && QuantityDue(item, true, line.qty)
    ensures Due(item, line)
  {
  }

  /**
   * In a converting tenant every POST of every run carries, line by line, the item's quantity times
   * its multiplier, whatever was edited before and however senders interleave.
   */
  lemma PostedQuantitiesExact(p: Policy, items: seq<BillItem>, status: BillStatus, docNo: Option<string>,
                              docs: map<string, Doc>, steps: seq<Step>, r: nat, i: nat)
    requires Fresh(status, docs) && p.mode == Active && AllExact(items)
    requires forall k :: 0 <= k < |steps| ==> ExactStep(steps[k])
    requires r < |Run(p, Start(items, status, docNo, docs), steps).requests|
    ensures var s := Run(p, Start(items, status, docNo, docs), steps);
            |s.requests[r].payload.lines| == |s.t.items|
            && (i < |s.t.items| ==> Due(s.t.items[i], s.requests[r].payload.lines[i]))
  {
    var s := Run(p, Start(items, status, docNo, docs), steps);
    assert Reachable(p, s);
    RunKeepsExact(p, Start(items, status, docNo, docs), steps);
    PostedExactly(p, s, r, i);
    if i < |s.t.items| {
      assert Exact(s.t.items[i]);
      DueWhenExact(s.t.items[i], s.requests[r].payload.lines[i]);
    }
  }
}
