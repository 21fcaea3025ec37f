/**
 * One bill, its items and its single immutable SML attempt, as the repository's
 * transactions see them. Every transaction is a function from tables to tables;
 * class BillRepo performs the same transactions on fields.
 */
module Attempts {
  import opened Wrappers
  import opened Bills

  datatype Route = SaleOrder | SaleInvoice

  /** The frozen request. Encoding is deterministic and injective, so equal bytes are equal payloads. */
  datatype Payload = Payload(docNo: string, lines: seq<Line>, settings: nat)

  datatype BillStatus = Pending | Failed | NeedsReview | BillSent | OtherStatus

  datatype AttemptState = Sending | Unknown | Sent | FailedExactRetry | Stale

  datatype CoreStatus = NoCore | Created | AlreadyExists | ExistingDocumentConflict | OtherCore

  /** The document profile frozen with the route; a shadow profile carries no version. */
  datatype Profile = NoProfile | Unversioned | Versioned

  datatype BillRow = BillRow(
    status: BillStatus, archived: bool, docNo: Option<string>, revision: nat, reviewed: Option<Fingerprint>)

  /** `revision` is the bill revision the attempt was created at, `leases` how often it was leased. */
  datatype Attempt = Attempt(
    docNo: string, route: Route, payload: Payload, profile: Profile,
    state: AttemptState, owner: Option<nat>, leaseUntil: Option<int>, core: CoreStatus,
    revision: nat, leases: nat)

  datatype Tables = Tables(row: BillRow, items: seq<BillItem>, attempt: Option<Attempt>)

  const LEASE_SECONDS := 300

  predicate Sendable(status: BillStatus) {
    status.Pending? || status.Failed? || status.NeedsReview?
  }

  // ----- creating, claiming, renewing, finishing -----

  datatype Draft = Draft(docNo: string, route: Route, payload: Payload, profile: Profile)

  datatype CreateOutcome = CreatedAttempt | Incomplete | NotSendable | Exists | MutationConflict | DependencyStale

  function CreateOutcomeOf(t: Tables, expected: nat, draft: Draft, dependenciesFresh: bool): CreateOutcome {
    if draft.docNo == "" then Incomplete
    else if t.row.archived || !Sendable(t.row.status) then NotSendable
    else if t.attempt.Some? then Exists
    else if t.row.revision != expected then MutationConflict
    else if !dependenciesFresh then DependencyStale
    else CreatedAttempt
  }

  function Create(t: Tables, expected: nat, draft: Draft, dependenciesFresh: bool, owner: nat, now: int): Tables {
    if CreateOutcomeOf(t, expected, draft, dependenciesFresh) != CreatedAttempt then t
    else
      var a := Attempt(draft.docNo, draft.route, draft.payload, draft.profile, Sending,
                       Some(owner), Some(now + LEASE_SECONDS), NoCore, t.row.revision, 1);
      t.(attempt := Some(a), row := t.row.(docNo := Some(draft.docNo)))
  }

  datatype ClaimOutcome = NothingToClaim | AlreadySent | NotReplayable | Busy | Claimed

  /** The states the code replays from: everything that is neither sent nor stale. */
  const CODE_CLAIMABLE: set<AttemptState> := {Sending, Unknown, FailedExactRetry}

  function ClaimOutcomeOf(t: Tables, claimable: set<AttemptState>, owner: nat, now: int): ClaimOutcome {
    if t.attempt.None? then NothingToClaim
    else
      var a := t.attempt.value;
      if a.state.Sent? then AlreadySent
      else if a.state !in claimable then NotReplayable
      else if a.state.Sending? && a.leaseUntil.Some? && a.leaseUntil.value > now && a.owner != Some(owner) then Busy
      else Claimed
  }

  function Claim(t: Tables, claimable: set<AttemptState>, owner: nat, now: int): Tables {
    if ClaimOutcomeOf(t, claimable, owner, now) != Claimed then t
    else
      t.(attempt := Some(t.attempt.value.(
           state := Sending, owner := Some(owner), leaseUntil := Some(now + LEASE_SECONDS), leases := t.attempt.value.leases + 1)))
  }

  predicate Holds(t: Tables, owner: nat) {
    t.attempt.Some? && t.attempt.value.owner == Some(owner) && t.attempt.value.state.Sending?
  }

  function Renew(t: Tables, owner: nat, now: int): Tables {
    if !Holds(t, owner) then t
    else t.(attempt := Some(t.attempt.value.(leaseUntil := Some(now + LEASE_SECONDS))))
  }

  /** What a finished exchange writes; `core` is None when no profile completion is recorded. */
  datatype Completion = Completion(state: AttemptState, status: BillStatus, core: Option<CoreStatus>)

  function Finish(t: Tables, owner: nat, c: Completion): Tables {
    if !Holds(t, owner) then t
    else
      var a := t.attempt.value;
      t.(attempt := Some(a.(state := c.state, owner := None, leaseUntil := None,
                            core := if c.core.Some? then c.core.value else a.core)),
         row := t.row.(status := c.status, docNo := Some(a.docNo)))
  }

  // ----- operator edits -----

  /** The row lock every manual mutation takes first. */
  predicate Editable(t: Tables) {
    !t.row.archived && t.attempt.None? && Sendable(t.row.status)
  }

  function Bumped(row: BillRow): BillRow {
    row.(revision := row.revision + 1)
  }

  function InsertItem(t: Tables, at: nat, item: BillItem): Tables {
    if !Editable(t) || at > |t.items| then t
    else t.(items := t.items[..at] + [item] + t.items[at..], row := Bumped(t.row))
  }

  function DeleteItem(t: Tables, at: nat): Tables {
    if !Editable(t) || at >= |t.items| then t
    else t.(items := t.items[..at] + t.items[at + 1..], row := Bumped(t.row))
  }

  datatype ItemChange = ItemChange(
    itemCode: Option<string>, unitCode: Option<string>, qty: Option<real>, price: Option<int>, discount: Option<int>)

  /** The columns the operator set. */
  function SetFields(item: BillItem, c: ItemChange): BillItem {
    var a := if c.itemCode.Some? then item.(itemCode := c.itemCode, mapped := c.itemCode.value != "") else item;
    var b := if c.unitCode.Some? then a.(unitCode := c.unitCode) else a;
    var d := if c.discount.Some? then b.(discount := c.discount.value) else b;
    var q := if c.qty.Some? then d.(qty := c.qty.value) else d;
    if c.price.Some? then q.(price := c.price) else q
  }

  /** Gross amount and converted quantities follow quantity and price. */
  function Recomputed(p: BillItem): BillItem {
    p.(gross := Some(Money.RoundToCents(Extended(p.qty, p.price))),
       smlQty := if p.multiplier.Some? then Some(SmlQuantity(p.qty, p.multiplier.value)) else p.smlQty,
       baseQty := if p.multiplier.Some? && p.stand.Some? && p.divide.Some? && p.divide.value > 0.0
                  then Some(BaseQuantity(p.qty, p.multiplier.value, p.stand.value, p.divide.value)) else p.baseQty)
  }

  function ChangedItem(item: BillItem, c: ItemChange): BillItem {
    var p := SetFields(item, c);
    var e := if c.qty.Some? || c.price.Some? then Recomputed(p) else p;
    if c.itemCode.Some? || c.unitCode.Some? then e.(issue := "manual_conversion_review_required") else e
  }

  predicate NoChange(c: ItemChange) {
    c.itemCode.None? && c.unitCode.None? && c.qty.None? && c.price.None? && c.discount.None?
  }

  function UpdateItem(t: Tables, at: nat, c: ItemChange): Tables {
    if NoChange(c) || !Editable(t) || at >= |t.items| then t
    else
      var amountChanged := c.qty.Some? || c.price.Some? || c.discount.Some?;
      t.(items := t.items[at := ChangedItem(t.items[at], c)],
         row := Bumped(t.row).(
           status := if c.itemCode.Some? || c.unitCode.Some? then NeedsReview else t.row.status,
           reviewed := if amountChanged then None else t.row.reviewed))
  }

  /** The approved product master an operator applies to a line. */
  datatype Master = Master(
    id: string, itemCode: string, unitCode: string, multiplier: int, stand: Option<real>, divide: Option<real>,
    revision: int, generation: Option<string>, status: string, salesEnabled: bool, setHash: string)

  function MasterIssue(m: Master): string {
    if m.status != "ready" then "conversion_" + m.status else if !m.salesEnabled then "sales_disabled" else ""
  }

  function MasteredItem(item: BillItem, m: Master, enforce: bool): BillItem {
    var known := m.stand.Some? && m.divide.Some? && m.divide.value != 0.0;
    item.(aliasId := Some(m.id), itemCode := Some(m.itemCode), unitCode := Some(m.unitCode),
          mapped := !(enforce && MasterIssue(m) != ""),
          sourceQty := if item.sourceQty.Some? then item.sourceQty else Some(item.qty),
          gross := if item.gross.Some? then item.gross else Some(Money.RoundToCents(GrossValue(item))),
          smlQty := if known then Some(SmlQuantity(item.qty, m.multiplier)) else None,
          multiplier := Some(m.multiplier), stand := m.stand, divide := m.divide,
          baseQty := if known then Some(BaseQuantity(item.qty, m.multiplier, m.stand.value, m.divide.value)) else None,
          mappingRevision := Some(m.revision), unitGeneration := m.generation, setHash := m.setHash,
          issue := MasterIssue(m))
  }

  /** The statement divides by the master's divisor when both figures are there. */
  predicate DividesByZero(m: Master) {
    m.stand.Some? && m.divide == Some(0.0)
  }

  function UseMaster(t: Tables, at: nat, m: Master, enforce: bool): Tables {
    if !Editable(t) || at >= |t.items| || DividesByZero(m) then t
    else
      var items := t.items[at := MasteredItem(t.items[at], m, enforce)];
      t.(items := items,
         row := Bumped(t.row).(
           status := if exists i :: 0 <= i < |items| && !items[i].mapped then NeedsReview
                     else if t.row.status.NeedsReview? then Pending else t.row.status))
  }

  function ConfirmReview(t: Tables, f: Fingerprint): Tables {
    if !Editable(t) then t else t.(row := Bumped(t.row).(reviewed := Some(f)))
  }

  function Promote(t: Tables): Tables {
    if t.row.status.NeedsReview? && !t.row.archived && t.attempt.None? then t.(row := Bumped(t.row).(status := Pending)) else t
  }

  /** Regenerating the document number also compares the status the handler loaded. */
  function RegenerateDocNo(t: Tables, loaded: BillStatus, docNo: string): Tables {
    if t.row.status == loaded && !t.row.archived && t.attempt.None?
    then t.(row := Bumped(t.row).(docNo := Some(docNo))) else t
  }

  /** UpdateStatus(needs_review, nil, ...): no guard, no revision, and the stored number is cleared. */
  function MarkNeedsReview(t: Tables): Tables {
    t.(row := t.row.(status := NeedsReview, docNo := None))
  }

  /** The repository object: the same transactions, on fields. */
  class BillRepo {
    var row: BillRow
    var items: seq<BillItem>
    var attempt: Option<Attempt>

    function Current(): Tables
      reads this
    {
      Tables(row, items, attempt)
    }

    /** The states every manual change and every first send asks for. */
    predicate MayChange()
      reads this
    {
      !row.archived && (row.status.Pending? || row.status.Failed? || row.status.NeedsReview?)
    }

    constructor (initial: BillRow, lines: seq<BillItem>)
      ensures Current() == Tables(initial, lines, None)
    {
      row, items, attempt := initial, lines, None;
    }

    method CreateSMLAttempt(expected: nat, draft: Draft, dependenciesFresh: bool, owner: nat, now: int)
      returns (outcome: CreateOutcome)
      modifies this
      ensures outcome == old(CreateOutcomeOf(Current(), expected, draft, dependenciesFresh))
      ensures Current() == old(Create(Current(), expected, draft, dependenciesFresh, owner, now))
      ensures outcome == Incomplete <==> draft.docNo == ""
      ensures outcome == NotSendable <==> draft.docNo != "" && !old(MayChange())
      ensures outcome == Exists <==> draft.docNo != "" && old(MayChange() && attempt.Some?)
      ensures outcome == MutationConflict <==> draft.docNo != "" && old(MayChange() && attempt.None? && row.revision != expected)
      ensures outcome == CreatedAttempt <==>
                draft.docNo != "" && old(MayChange() && attempt.None? && row.revision == expected) && dependenciesFresh
      ensures outcome != CreatedAttempt ==> attempt == old(attempt) && row == old(row)
      ensures items == old(items)
      ensures outcome == CreatedAttempt ==>
                row == old(row).(docNo := Some(draft.docNo))
                && attempt == Some(Attempt(draft.docNo, draft.route, draft.payload, draft.profile, Sending, Some(owner),
                                           Some(now + 300), NoCore, row.revision, 1))
    {
      if draft.docNo == "" { return Incomplete; }
      if row.archived || !Sendable(row.status) { return NotSendable; }
      if attempt.Some? { return Exists; }
      if row.revision != expected { return MutationConflict; }
      if !dependenciesFresh { return DependencyStale; }
      attempt := Some(Attempt(draft.docNo, draft.route, draft.payload, draft.profile, Sending,
                              Some(owner), Some(now + LEASE_SECONDS), NoCore, row.revision, 1));
      row := row.(docNo := Some(draft.docNo));
      return CreatedAttempt;
    }

    method ClaimExistingSMLAttempt(owner: nat, now: int) returns (outcome: ClaimOutcome)
      modifies this`attempt
      ensures outcome == old(ClaimOutcomeOf(Current(), CODE_CLAIMABLE, owner, now))
      ensures Current() == old(Claim(Current(), CODE_CLAIMABLE, owner, now))
      ensures outcome == NothingToClaim <==> old(attempt.None?)
      ensures outcome == AlreadySent <==> old(attempt.Some? && attempt.value.state.Sent?)
      ensures outcome == NotReplayable <==> old(attempt.Some? && attempt.value.state.Stale?)
      ensures outcome == Busy <==>
                old(attempt.Some? && attempt.value.state.Sending? && attempt.value.leaseUntil.Some?
                    && attempt.value.leaseUntil.value > now && attempt.value.owner != Some(owner))
      ensures outcome != Claimed ==> attempt == old(attempt)
      ensures outcome == Claimed ==>
                attempt == Some(old(attempt).value.(state := Sending, owner := Some(owner), leaseUntil := Some(now + 300),
                                                    leases := old(attempt).value.leases + 1))
    {
      if attempt.None? { return NothingToClaim; }
      var a := attempt.value;
      if a.state.Sent? { return AlreadySent; }
      if a.state.Stale? { return NotReplayable; }
      if a.state.Sending? && a.leaseUntil.Some? && a.leaseUntil.value > now && a.owner != Some(owner) { return Busy; }
      attempt := Some(a.(state := Sending, owner := Some(owner), leaseUntil := Some(now + LEASE_SECONDS), leases := a.leases + 1));
      return Claimed;
    }

    method RenewSMLAttemptLease(owner: nat, now: int) returns (held: bool)
      modifies this`attempt
      ensures held == old(Holds(Current(), owner))
      ensures Current() == old(Renew(Current(), owner, now))
      ensures held <==> old(attempt.Some? && attempt.value.owner == Some(owner) && attempt.value.state.Sending?)
      ensures attempt == if held then Some(old(attempt).value.(leaseUntil := Some(now + 300))) else old(attempt)
    {
      held := attempt.Some? && attempt.value.owner == Some(owner) && attempt.value.state.Sending?;
      if held {
        attempt := Some(attempt.value.(leaseUntil := Some(now + LEASE_SECONDS)));
      }
    }

    method FinishSMLAttempt(owner: nat, c: Completion) returns (written: bool)
      modifies this`attempt, this`row
      ensures written == old(Holds(Current(), owner))
      ensures Current() == old(Finish(Current(), owner, c))
      ensures written <==> old(attempt.Some? && attempt.value.owner == Some(owner) && attempt.value.state.Sending?)
      ensures !written ==> attempt == old(attempt) && row == old(row)
      ensures written ==>
                && row == old(row).(status := c.status, docNo := Some(old(attempt).value.docNo))
                && attempt == Some(old(attempt).value.(state := c.state, owner := None, leaseUntil := None,
                                                       core := if c.core.Some? then c.core.value else old(attempt).value.core))
    {
      if attempt.None? || attempt.value.owner != Some(owner) || !attempt.value.state.Sending? { return false; }
      var a := attempt.value;
      a := a.(state := c.state, owner := None, leaseUntil := None);
      if c.core.Some? { a := a.(core := c.core.value); }
      attempt := Some(a);
      row := row.(status := c.status, docNo := Some(a.docNo));
      return true;
    }

    method UpdateBillItemFields(at: nat, c: ItemChange) returns (conflict: bool)
      modifies this`row, this`items
      ensures Current() == old(UpdateItem(Current(), at, c))
      ensures conflict <==> !NoChange(c) && old(!Editable(Current()) || at >= |items|)
      ensures conflict ==> row == old(row) && items == old(items)
      ensures conflict <==>
                !(c.itemCode.None? && c.unitCode.None? && c.qty.None? && c.price.None? && c.discount.None?)
                && !old(MayChange() && attempt.None? && at < |items|)
      ensures |items| == |old(items)| && forall i :: 0 <= i < |items| && i != at ==> items[i] == old(items)[i]
      ensures !conflict && at < |items| ==> items[at] == ChangedItem(old(items)[at], c)
      ensures !conflict && (c.itemCode.Some? || c.unitCode.Some? || c.qty.Some? || c.price.Some? || c.discount.Some?) ==>
                row == old(row).(
                  revision := old(row.revision) + 1,
                  status := if c.itemCode.Some? || c.unitCode.Some? then NeedsReview else old(row.status),
                  reviewed := if c.qty.Some? || c.price.Some? || c.discount.Some? then None else old(row.reviewed))
    {
      if NoChange(c) { return false; }
      if row.archived || attempt.Some? || !Sendable(row.status) || at >= |items| { return true; }
      items := items[at := ChangedItem(items[at], c)];
      if c.itemCode.Some? || c.unitCode.Some? { row := row.(status := NeedsReview); }
      if c.qty.Some? || c.price.Some? || c.discount.Some? { row := row.(reviewed := None); }
      row := row.(revision := row.revision + 1);
      return false;
    }

    method ConfirmAmountReview(f: Fingerprint) returns (conflict: bool)
      modifies this`row
      ensures Current() == old(ConfirmReview(Current(), f))
      ensures conflict <==> old(!Editable(Current()))
      ensures conflict <==> !old(MayChange() && attempt.None?)
      ensures row == if conflict then old(row) else old(row).(reviewed := Some(f), revision := old(row.revision) + 1)
    {
      if row.archived || attempt.Some? || !Sendable(row.status) { return true; }
      row := row.(reviewed := Some(f), revision := row.revision + 1);
      return false;
    }

    method InsertManualItem(at: nat, item: BillItem) returns (conflict: bool)
      modifies this`row, this`items
      ensures Current() == old(InsertItem(Current(), at, item))
      ensures conflict <==> old(!Editable(Current()) || at > |items|)
      ensures conflict <==> !old(MayChange() && attempt.None? && at <= |items|)
      ensures conflict ==> row == old(row) && items == old(items)
      ensures !conflict ==>
                && row == old(row).(revision := old(row.revision) + 1) && |items| == |old(items)| + 1 && items[at] == item
                && (forall i :: 0 <= i < at ==> items[i] == old(items)[i])
                && (forall i :: at <= i < |old(items)| ==> items[i + 1] == old(items)[i])
    {
      if row.archived || attempt.Some? || !Sendable(row.status) || at > |items| { return true; }
      items := items[..at] + [item] + items[at..];
      row := row.(revision := row.revision + 1);
      return false;
    }

    method DeleteManualItem(at: nat) returns (conflict: bool)
      modifies this`row, this`items
      ensures Current() == old(DeleteItem(Current(), at))
      ensures conflict <==> old(!Editable(Current()) || at >= |items|)
      ensures conflict <==> !old(MayChange() && attempt.None? && at < |items|)
      ensures conflict ==> row == old(row) && items == old(items)
      ensures !conflict ==>
                && row == old(row).(revision := old(row.revision) + 1) && |items| == |old(items)| - 1
                && (forall i :: 0 <= i < at ==> items[i] == old(items)[i])
                && (forall i :: at <= i < |items| ==> items[i] == old(items)[i + 1])
    {
      if row.archived || attempt.Some? || !Sendable(row.status) || at >= |items| { return true; }
      items := items[..at] + items[at + 1..];
      row := row.(revision := row.revision + 1);
      return false;
    }

    method ApplyMarketplaceMaster(at: nat, m: Master, enforce: bool) returns (refused: bool)
      modifies this`row, this`items
      ensures Current() == old(UseMaster(Current(), at, m, enforce))
      ensures refused <==> old(!Editable(Current()) || at >= |items|) || DividesByZero(m)
      ensures refused ==> row == old(row) && items == old(items)
      ensures refused <==> !old(MayChange() && attempt.None? && at < |items|) || (m.stand.Some? && m.divide == Some(0.0))
      ensures |items| == |old(items)| && forall i :: 0 <= i < |items| && i != at ==> items[i] == old(items)[i]
      ensures !refused ==>
                items[at] == MasteredItem(old(items)[at], m, enforce)
                && row == old(row).(
                     revision := old(row.revision) + 1,
                     status := if exists i :: 0 <= i < |items| && !items[i].mapped then NeedsReview
                               else if old(row.status).NeedsReview? then Pending else old(row.status))
    {
      if row.archived || attempt.Some? || !Sendable(row.status) || at >= |items| || DividesByZero(m) { return true; }
      items := items[at := MasteredItem(items[at], m, enforce)];
      var unmapped := false;
      for i := 0 to |items|
        invariant unmapped <==> exists j :: 0 <= j < i && !items[j].mapped
      {
        if !items[i].mapped { unmapped := true; }
      }
      row := row.(revision := row.revision + 1,
                  status := if unmapped then NeedsReview else if row.status.NeedsReview? then Pending else row.status);
      return false;
    }

    method UpdateDocNoIfUnattempted(loaded: BillStatus, docNo: string) returns (conflict: bool)
      modifies this`row
      ensures Current() == old(RegenerateDocNo(Current(), loaded, docNo))
      ensures conflict <==> old(row.status != loaded || row.archived || attempt.Some?)
      ensures row == if conflict then old(row) else old(row).(docNo := Some(docNo), revision := old(row.revision) + 1)
    {
      if row.status != loaded || row.archived || attempt.Some? { return true; }
      row := row.(docNo := Some(docNo), revision := row.revision + 1);
      return false;
    }

    /** A confirmed bill goes back to pending, unless it is archived or has an attempt. */
    method PromoteReviewedBillPending() returns (promoted: bool)
      modifies this`row
      ensures Current() == old(Promote(Current()))
      ensures promoted <==> old(row.status.NeedsReview? && !row.archived && attempt.None?)
      ensures row == if promoted then old(row).(status := Pending, revision := old(row.revision) + 1) else old(row)
    {
      if !row.status.NeedsReview? || row.archived || attempt.Some? { return false; }
      row := row.(status := Pending, revision := row.revision + 1);
      return true;
    }

    /** The plain status update: neither the attempt nor the revision is looked at. */
    method UpdateStatusToReview()
      modifies this`row
      ensures attempt == old(attempt) && items == old(items)
      ensures row.status.NeedsReview? && row.docNo.None?
      ensures row.revision == old(row.revision) && row.reviewed == old(row.reviewed) && row.archived == old(row.archived)
    {
      row := row.(status := NeedsReview, docNo := None);
    }
  }
}
