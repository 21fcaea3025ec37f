/** From a loaded bill to the frozen request: the sender's checks, in their order, and what passing them means. */
module Sender {
  import opened Wrappers
  import opened Money
  import opened Bills
  import opened Attempts
  import Text

  /** A bill as FindByID returns it; the row and the items are read one after the other. */
  datatype View = View(row: BillRow, hasAttempt: bool, items: seq<BillItem>)

  /** What the request, the configuration and the catalog contribute to one send. */
  datatype Options = Options(
    requestOk: bool, route: Route, docNo: string, settings: nat, profile: Profile,
    mode: ConversionMode, catalog: Catalog, setIssue: bool, dialogOk: bool)

  datatype Preparation = Refused | Review | Replay | Go(draft: Draft)

  predicate AllSane(items: seq<BillItem>) {
    forall i :: 0 <= i < |items| ==> AmountsSane(items[i])
  }

  predicate AmountReviewed(row: BillRow, items: seq<BillItem>) {
    row.reviewed == Some(AmountFingerprint(items))
  }

  function Render(route: Route, items: seq<BillItem>, lines: seq<Line>): (r: seq<Line>)
    ensures |r| == |lines|
  {
    if route.SaleInvoice? then InvoiceUnits(lines, UnitCache(items)) else lines
  }

  // ----- unit-catalog generations -----

  function Generation(item: BillItem): string {
    if item.unitGeneration.Some? then Text.Trim(item.unitGeneration.value) else ""
  }

  predicate OneGeneration(items: seq<BillItem>) {
    forall i, j :: 0 <= i < |items| && 0 <= j < |items| && Generation(items[i]) != "" && Generation(items[j]) != "" ==>
      Generation(items[i]) == Generation(items[j])
  }

  /** Collects the generations in item order; more than one is an error. */
  method DependencySnapshot(items: seq<BillItem>) returns (generation: Result<Option<string>, string>)
    ensures generation.Ok? <==> OneGeneration(items)
    ensures generation == Ok(None) <==> forall i :: 0 <= i < |items| ==> Generation(items[i]) == ""
    ensures generation.Ok? && generation.value.Some? ==>
              forall i :: 0 <= i < |items| ==> Generation(items[i]) in {"", generation.value.value}
  {
    var generations: set<string> := {};
    for i := 0 to |items|
      invariant forall g :: g in generations ==> g != "" && exists j :: 0 <= j < i && Generation(items[j]) == g
      invariant forall j :: 0 <= j < i && Generation(items[j]) != "" ==> Generation(items[j]) in generations
    {
      var g := Generation(items[i]);
      if g != "" { generations := generations + {g}; }
    }
    if generations == {} { return Ok(None); }
    var one :| one in generations;
    var others := generations - {one};
    if others != {} {
      var other :| other in others;
      assert other in generations;
      return Err("unit_catalog_generation_mismatch");
    }
    assert generations == {one} by { assert generations == others + {one}; }
    return Ok(Some(one));
  }

  // ----- the checks in order -----

  function Prepare(view: View, reviewRequired: bool, o: Options): Preparation {
    if !Sendable(view.row.status) || !o.requestOk then Refused
    else if view.hasAttempt then Replay
    else if reviewRequired && !AmountReviewed(view.row, view.items) then Refused
    else if !AllSane(view.items) then Refused
    else if !AllMapped(view.items, o.catalog) || o.setIssue then Review
    else
      var lines := Lines(view.items, o.mode, o.catalog);
      if lines.Err? then Review
      else if !o.dialogOk || !OneGeneration(view.items) then Refused
      else Go(Draft(o.docNo, o.route, Payload(o.docNo, Render(o.route, view.items, lines.value), o.settings), o.profile))
  }

  method PrepareSend(view: View, reviewRequired: bool, o: Options) returns (p: Preparation)
    ensures p == Prepare(view, reviewRequired, o)
  {
    var items := view.items;
    if !Sendable(view.row.status) || !o.requestOk { return Refused; }
    if view.hasAttempt { return Replay; }
    if reviewRequired && view.row.reviewed != Some(AmountFingerprint(items)) { return Refused; }
    for i := 0 to |items|
      invariant forall j :: 0 <= j < i ==> AmountsSane(items[j])
    {
      var gross := GrossValue(items[i]);
      if gross < 0.0 || items[i].discount < 0 || items[i].discount as real > gross + 0.1 { return Refused; }
    }
    var allMapped := true;
    for i := 0 to |items|
      invariant allMapped && forall j :: 0 <= j < i ==> ItemMapped(items[j], o.catalog)
    {
      if !items[i].mapped || items[i].itemCode.None? || Text.Trim(items[i].itemCode.value) == ""
         || Text.Trim(items[i].itemCode.value) !in o.catalog {
        allMapped := false;
        break;
      }
    }
    if !allMapped || o.setIssue { return Review; }
    var lines := BuildLines(items, o.mode, o.catalog);
    if lines.Err? { return Review; }
    if !o.dialogOk { return Refused; }
    var rendered := lines.value;
    if o.route.SaleInvoice? {
      var cache := FillUnitCache(items);
      rendered := InvoiceUnits(rendered, cache);
    }
    var generation := DependencySnapshot(items);
    if generation.Err? { return Refused; }
    return Go(Draft(o.docNo, o.route, Payload(o.docNo, rendered, o.settings), o.profile));
  }

  /** What a frozen request owes to the items it was built from. */
  predicate Sound(draft: Draft, items: seq<BillItem>, mode: ConversionMode) {
    && draft.payload.docNo == draft.docNo
    && FaithfulLines(items, mode, draft.payload.lines)
    && AllSane(items) && OneGeneration(items)
    && (draft.route.SaleOrder? || UnitsAgree(items) ==> UnitsKept(items, draft.payload.lines))
  }

  lemma FaithfulCodes(items: seq<BillItem>, mode: ConversionMode, lines: seq<Line>)
    requires FaithfulLines(items, mode, lines)
    ensures CodesKept(items, lines)
  {
    forall i | 0 <= i < |items| ensures items[i].itemCode == Some(lines[i].itemCode) {
      assert Faithful(items[i], mode, lines[i]);
    }
  }

  lemma FaithfulInvoice(items: seq<BillItem>, mode: ConversionMode, lines: seq<Line>)
    requires FaithfulLines(items, mode, lines)
    ensures FaithfulLines(items, mode, InvoiceUnits(lines, UnitCache(items)))
  {
    var out := InvoiceUnits(lines, UnitCache(items));
    forall i | 0 <= i < |items| ensures Faithful(items[i], mode, out[i]) {
      assert Faithful(items[i], mode, lines[i]);
    }
  }

  lemma {:induction false} LinesKeepUnits(items: seq<BillItem>, mode: ConversionMode, catalog: Catalog)
    requires AllMapped(items, catalog) && Lines(items, mode, catalog).Ok?
    ensures UnitsKept(items, Lines(items, mode, catalog).value)
  {
    if items != [] {
      var n := |items| - 1;
      var front := items[..n];
      assert ItemMapped(items[n], catalog);
      forall i | 0 <= i < n ensures ItemMapped(front[i], catalog) { assert front[i] == items[i]; }
      LinesKeepUnits(front, mode, catalog);
      var kept, all := Lines(front, mode, catalog).value, Lines(items, mode, catalog).value;
      forall i | 0 <= i < |items| ensures all[i].unitCode == UnitText(items[i]) {
        if i < n { assert all[i] == kept[i] && front[i] == items[i]; }
      }
    }
  }

  /**
   * A bill without an attempt goes to the ERP exactly when every check passes, and the
   * request then says line by line what the items say.
   */
  lemma GoesExactly(view: View, reviewRequired: bool, o: Options)
    ensures Prepare(view, reviewRequired, o).Go? <==>
            && !view.hasAttempt && Sendable(view.row.status) && o.requestOk && o.dialogOk && !o.setIssue
            && (reviewRequired ==> AmountReviewed(view.row, view.items))
            && AllSane(view.items) && AllMapped(view.items, o.catalog) && AllReady(view.items, o.mode)
            && OneGeneration(view.items)
    ensures Prepare(view, reviewRequired, o).Go? ==>
              Sound(Prepare(view, reviewRequired, o).draft, view.items, o.mode)
  {
    if AllMapped(view.items, o.catalog) {
      LinesFaithful(view.items, o.mode, o.catalog);
      if Lines(view.items, o.mode, o.catalog).Ok? {
        var lines := Lines(view.items, o.mode, o.catalog).value;
        LinesKeepUnits(view.items, o.mode, o.catalog);
        FaithfulCodes(view.items, o.mode, lines);
        FaithfulInvoice(view.items, o.mode, lines);
        InvoiceUnitsExact(view.items, lines);
      }
    }
  }
}
