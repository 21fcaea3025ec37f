/**
 * One run of the Shopee Auto-SML worker on a leased job. Everything the worker reads comes from
 * a record of readings, each arbitrary, so that anything may change between two of them.
 */
module AutoSml {
  import opened Wrappers
  import opened Bills
  import opened Attempts
  import Text

  // ----- trigger statuses -----

  datatype OrderStatus =
    | ReadyToShip | Processed | Shipped | ToConfirmReceive | Completed
    | OrderUnpaid | InCancel | Cancelled | UnknownStatus

  function StatusName(s: OrderStatus): string {
    match s
    case ReadyToShip => "READY_TO_SHIP"
    case Processed => "PROCESSED"
    case Shipped => "SHIPPED"
    case ToConfirmReceive => "TO_CONFIRM_RECEIVE"
    case Completed => "COMPLETED"
    case OrderUnpaid => "UNPAID"
    case InCancel => "IN_CANCEL"
    case Cancelled => "CANCELLED"
    case UnknownStatus => ""
  }

  const KNOWN := [ReadyToShip, Processed, Shipped, ToConfirmReceive, Completed, OrderUnpaid, InCancel, Cancelled]

  function FirstNamed(text: string, among: seq<OrderStatus>): (r: OrderStatus)
    ensures r != UnknownStatus ==> StatusName(r) == text
  {
    if among == [] then UnknownStatus
    else if among[0] != UnknownStatus && StatusName(among[0]) == text then among[0]
    else FirstNamed(text, among[1..])
  }

  /** Statuses are compared trimmed and in upper case. */
  function ParseStatus(text: string): OrderStatus {
    FirstNamed(Text.Upper(Text.Trim(text)), KNOWN)
  }

  predicate Delivering(s: OrderStatus) {
    s.Processed? || s.Shipped? || s.ToConfirmReceive? || s.Completed?
  }

  predicate TriggerAllows(trigger: OrderStatus, status: OrderStatus) {
    || (trigger.ReadyToShip? && (status.ReadyToShip? || Delivering(status)))
    || (trigger.Processed? && Delivering(status))
  }

  predicate StopStatus(status: OrderStatus) {
    status.OrderUnpaid? || status.InCancel? || status.Cancelled?
  }

  datatype Decision = Proceed | Cancel | NeedReview(code: string)

  /** A job starts from one of two statuses; any other snapshot is invalid. */
  function ClassifyTrigger(trigger: OrderStatus, transitionAt: Option<int>, status: OrderStatus): Decision {
    if StopStatus(status) then Cancel
    else if !trigger.ReadyToShip? && !trigger.Processed? then NeedReview("invalid_trigger_snapshot")
    else if transitionAt.None? then NeedReview("missing_trigger_transition")
    else if TriggerAllows(trigger, status) then Proceed
    else if status.ReadyToShip? || Delivering(status) then NeedReview("trigger_status_not_reached")
    else NeedReview("unknown_order_status")
  }

  /** Parsing recognises a known status under any surrounding white space and only then. */
  lemma ParsesExactly(text: string, s: OrderStatus)
    requires !s.UnknownStatus?
    ensures ParseStatus(text) == s <==> Text.Upper(Text.Trim(text)) == StatusName(s)
  {
    NamesDiffer();
    var name := Text.Upper(Text.Trim(text));
    if name == StatusName(s) { FirstNamedFinds(s, KNOWN); }
  }

  lemma {:induction false} FirstNamedFinds(s: OrderStatus, among: seq<OrderStatus>)
    requires s in among && !s.UnknownStatus?
    requires forall a, b :: StatusName(a) == StatusName(b) ==> a == b
    ensures FirstNamed(StatusName(s), among) == s
  {
    if among[0] != s { FirstNamedFinds(s, among[1..]); }
  }

  lemma NamesDiffer()
    ensures forall a, b :: StatusName(a) == StatusName(b) ==> a == b
  {
    forall a, b | StatusName(a) == StatusName(b) ensures a == b {
      assert StatusName(Processed)[0] == 'P' && StatusName(Completed)[1] == 'O' && StatusName(InCancel)[0] == 'I'
             && StatusName(Cancelled)[0] == 'C' && StatusName(Cancelled)[1] == 'A' && StatusName(Completed)[0] == 'C';
      assert |StatusName(a)| == |StatusName(b)|;
      assert |StatusName(a)| > 0 ==> StatusName(a)[0] == StatusName(b)[0] && StatusName(a)[1] == StatusName(b)[1];
    }
  }

  /**
   * A run goes on exactly when the entry into the trigger status is on record and the order is at or past it;
   * an unpaid or cancelled order cancels the job whatever else holds.
   */
  lemma ProceedsExactly(trigger: OrderStatus, transitionAt: Option<int>, status: OrderStatus)
    ensures ClassifyTrigger(trigger, transitionAt, status) == Proceed <==>
            transitionAt.Some?
            && ((trigger == ReadyToShip && status in {ReadyToShip, Processed, Shipped, ToConfirmReceive, Completed})
                || (trigger == Processed && status in {Processed, Shipped, ToConfirmReceive, Completed}))
    ensures ClassifyTrigger(trigger, transitionAt, status) == Cancel <==> status in {OrderUnpaid, InCancel, Cancelled}
    ensures ClassifyTrigger(trigger, transitionAt, status) == NeedReview("unknown_order_status") ==> status == UnknownStatus
  {
  }

  /** The name Shopee uses is read back, with space around it and also in lower case. */
  lemma NameReads(s: OrderStatus, text: string, before: string, after: string)
    requires !s.UnknownStatus? && text in {StatusName(s), Text.Lower(StatusName(s))}
    requires forall i :: 0 <= i < |before| ==> Text.IsSpace(before[i])
    requires forall i :: 0 <= i < |after| ==> Text.IsSpace(after[i])
    ensures ParseStatus(before + text + after) == s
  {
    NameIsUpper(s);
    UpperOfLower(StatusName(s));
    Text.TrimExactly(before, text, after);
    ParsesExactly(before + text + after, s);
  }

  lemma UpperOfLower(name: string)
    requires forall i :: 0 <= i < |name| ==> 'A' <= name[i] <= 'Z' || name[i] == '_'
    ensures Text.Upper(name) == name && Text.Upper(Text.Lower(name)) == name
  {
  }

  lemma NameIsUpper(s: OrderStatus)
    requires !s.UnknownStatus?
    ensures StatusName(s) != "" && Text.Trimmed(StatusName(s))
    ensures forall i :: 0 <= i < |StatusName(s)| ==> 'A' <= StatusName(s)[i] <= 'Z' || StatusName(s)[i] == '_'
    ensures Text.Trimmed(Text.Lower(StatusName(s)))
  {
  }

  lemma NamesAre()
    ensures StatusName(ReadyToShip) == "READY_TO_SHIP" && StatusName(Processed) == "PROCESSED" && StatusName(Shipped) == "SHIPPED"
    ensures StatusName(ToConfirmReceive) == "TO_CONFIRM_RECEIVE" && StatusName(Completed) == "COMPLETED"
    ensures StatusName(OrderUnpaid) == "UNPAID" && StatusName(InCancel) == "IN_CANCEL" && StatusName(Cancelled) == "CANCELLED"
  {
  }

  // ----- a run -----

  datatype Setting = Setting(enabled: bool, paused: bool, route: string)

  datatype Job = Job(route: string, trigger: OrderStatus, transitionAt: Option<int>, fingerprint: Option<Fingerprint>, docNo: string)

  datatype Reason = Unpaid | OrderCancelled | NotReached | OtherReason

  /** What creating the order's document reported; `busy` and `userAction` are tests on its text. */
  datatype Creation = Creation(httpStatus: int, billId: string, reason: Reason, busy: bool, userAction: bool)

  datatype Bill = Bill(status: BillStatus, docNo: string, items: seq<BillItem>)

  datatype SendReply = SendReply(httpStatus: int, busy: bool, userAction: bool)

  datatype Readings = Readings(
    setting: Option<Setting>, liveRoute: string,
    orderStatus: Option<OrderStatus>, snapshotBillId: string,
    creation: Creation, bill: Option<Bill>, linked: bool,
    settingAgain: Option<Setting>, liveRouteAgain: string, billAgain: Option<Bill>,
    now: string, storedTime: Option<string>, sending: SendReply, reloaded: Option<Bill>)

  datatype Effect =
    | PauseForRouteChange
    | LinkBill(fingerprint: Fingerprint)
    | GetOrSetDocumentTime(proposal: string)
    | SendBill(items: seq<BillItem>, documentTime: string)
    | MarkCancelled(code: string)
    | MarkNeedsReview(code: string)
    | MarkContentionRetry
    | MarkTransient(code: string)
    | MarkSucceeded(docNo: string)

  predicate Outcome(e: Effect) {
    e.MarkCancelled? || e.MarkNeedsReview? || e.MarkContentionRetry? || e.MarkTransient? || e.MarkSucceeded?
  }

  predicate Available(s: Option<Setting>) {
    s.Some? && s.value.enabled && !s.value.paused
  }

  predicate RouteHolds(job: Job, r: Readings) {
    r.liveRoute != "" && r.setting.Some? && r.liveRoute == r.setting.value.route == job.route
  }

  predicate Triggered(job: Job, r: Readings) {
    r.orderStatus.Some? && ClassifyTrigger(job.trigger, job.transitionAt, r.orderStatus.value) == Proceed
  }

  /** The run gets as far as having the order's document created. */
  predicate AtCreation(job: Job, r: Readings) {
    Available(r.setting) && RouteHolds(job, r) && Triggered(job, r)
  }

  predicate CreationRefused(r: Readings) {
    r.creation.httpStatus >= 400 && r.creation.billId == ""
  }

  /** ... as far as the order's bill. */
  predicate AtBill(job: Job, r: Readings) {
    AtCreation(job, r) && !CreationRefused(r) && (r.creation.billId != "" || r.snapshotBillId != "") && r.bill.Some?
  }

  predicate BillFits(job: Job, bill: Bill) {
    && (bill.status.Pending? || bill.status.Failed?)
    && (job.fingerprint.Some? ==> job.fingerprint.value == AmountFingerprint(bill.items))
  }

  /** ... as far as linking job and bill. */
  predicate AtLink(job: Job, r: Readings) {
    AtBill(job, r) && BillFits(job, r.bill.value)
  }

  /** ... and past the second look at setting and route. */
  predicate AtReload(job: Job, r: Readings) {
    && AtLink(job, r) && r.linked
    && Available(r.settingAgain) && r.liveRouteAgain != "" && r.liveRouteAgain == r.settingAgain.value.route
  }

  /** The bill as read again is the one linked, and not sent meanwhile. */
  predicate AtTime(job: Job, r: Readings) {
    && AtReload(job, r) && r.billAgain.Some? && !r.billAgain.value.status.BillSent?
    && AmountFingerprint(r.billAgain.value.items) == AmountFingerprint(r.bill.value.items)
  }

  /** Exactly the circumstances in which the worker sends. */
  predicate Sends(job: Job, r: Readings) {
    AtTime(job, r) && r.storedTime.Some?
  }

  /** How far a run gets, on what it reads: creation, bill, link, second look, document time, send. */
  lemma ReachExactly(job: Job, r: Readings)
    ensures AtCreation(job, r) <==>
            && r.setting.Some? && r.setting.value.enabled && !r.setting.value.paused
            && r.liveRoute != "" && r.liveRoute == job.route && r.setting.value.route == job.route
            && r.orderStatus.Some? && ClassifyTrigger(job.trigger, job.transitionAt, r.orderStatus.value) == Proceed
    ensures AtBill(job, r) <==>
            && AtCreation(job, r) && r.bill.Some? && (r.creation.httpStatus < 400 || r.creation.billId != "")
            && !(r.creation.billId == "" && r.snapshotBillId == "")
    ensures AtLink(job, r) <==>
            && AtBill(job, r) && r.bill.value.status in {Pending, Failed}
            && (job.fingerprint.None? || job.fingerprint == Some(AmountFingerprint(r.bill.value.items)))
    ensures AtReload(job, r) <==>
            && AtLink(job, r) && r.linked && r.settingAgain.Some? && r.settingAgain.value.enabled && !r.settingAgain.value.paused
            && r.liveRouteAgain != "" && r.settingAgain.value.route == r.liveRouteAgain
    ensures Sends(job, r) <==>
            && AtReload(job, r) && r.storedTime.Some? && r.billAgain.Some? && r.billAgain.value.status != BillSent
            && AmountFingerprint(r.bill.value.items) == AmountFingerprint(r.billAgain.value.items)
  {
  }

  predicate NoSend(effects: seq<Effect>) {
    forall i :: 0 <= i < |effects| ==> !effects[i].SendBill?
  }

  /** Exactly one outcome call, and it comes last. */
  predicate OneOutcome(effects: seq<Effect>) {
    effects != [] && Outcome(effects[|effects| - 1]) && forall i :: 0 <= i < |effects| - 1 ==> !Outcome(effects[i])
  }

  function Last(effects: seq<Effect>): Effect
    requires effects != []
  {
    effects[|effects| - 1]
  }

  // ----- which outcome -----

  predicate EndsCancelled(job: Job, r: Readings) {
    || !Available(r.setting)
    || (Available(r.setting) && RouteHolds(job, r) && r.orderStatus.Some? && r.orderStatus.value in {OrderUnpaid, InCancel, Cancelled})
    || (AtCreation(job, r) && CreationRefused(r) && (r.creation.reason.Unpaid? || r.creation.reason.OrderCancelled?))
    || (AtLink(job, r) && r.linked && !Available(r.settingAgain))
  }

  predicate EndsInContention(job: Job, r: Readings) {
    || (AtCreation(job, r) && CreationRefused(r) && r.creation.reason.OtherReason? && r.creation.httpStatus == 409 && r.creation.busy)
    || (Sends(job, r) && r.sending.httpStatus == 409 && r.sending.busy)
  }

  predicate EndsSucceeded(job: Job, r: Readings) {
    || (AtBill(job, r) && r.bill.value.status.BillSent? && r.bill.value.docNo != "")
    || (AtReload(job, r) && r.billAgain.Some? && r.billAgain.value.status.BillSent?)
    || (Sends(job, r) && r.sending.httpStatus == 200)
  }

  predicate EndsTransient(job: Job, r: Readings) {
    || (Available(r.setting) && RouteHolds(job, r) && r.orderStatus.None?)
    || (AtCreation(job, r) && CreationRefused(r) && r.creation.reason.OtherReason? && r.creation.httpStatus >= 500 && !r.creation.userAction)
    || (AtCreation(job, r) && !CreationRefused(r) && !AtBill(job, r))
    || (AtLink(job, r) && !r.linked)
    || (AtReload(job, r) && r.billAgain.None?)
    || (AtTime(job, r) && r.storedTime.None?)
    || (Sends(job, r) && r.sending.httpStatus != 200 && r.sending.httpStatus != 202
        && !(r.sending.httpStatus == 409 && r.sending.busy) && !r.sending.userAction)
  }

  /** The number the job is completed with: the bill's, or the one the job had. */
  function NumberFor(bill: Bill, job: Job): string {
    if bill.docNo != "" then bill.docNo else job.docNo
  }

  method CreationExit(c: Creation) returns (e: Effect)
    requires c.httpStatus >= 400
    ensures Outcome(e) && !e.MarkSucceeded?
    ensures e.MarkCancelled? <==> c.reason.Unpaid? || c.reason.OrderCancelled?
    ensures e.MarkContentionRetry? <==> c.reason.OtherReason? && c.httpStatus == 409 && c.busy
    ensures e.MarkTransient? <==> c.reason.OtherReason? && c.httpStatus >= 500 && !c.userAction
  {
    if c.reason.Unpaid? || c.reason.OrderCancelled? { return MarkCancelled("status_changed"); }
    if c.reason.NotReached? { return MarkNeedsReview("trigger_status_not_reached"); }
    if c.httpStatus == 409 && c.busy { return MarkContentionRetry; }
    if (400 <= c.httpStatus && c.httpStatus < 500) || c.userAction { return MarkNeedsReview("create"); }
    return MarkTransient("bill_create_failed");
  }

  method SendExit(reply: SendReply, bill: Bill, job: Job) returns (e: Effect)
    ensures Outcome(e) && !e.MarkCancelled?
    ensures e.MarkSucceeded? <==> reply.httpStatus == 200
    ensures e.MarkSucceeded? ==> e.docNo == if bill.docNo != "" then bill.docNo else job.docNo
    ensures e.MarkContentionRetry? <==> reply.httpStatus == 409 && reply.busy
    ensures e.MarkNeedsReview? <==>
            reply.httpStatus != 200 && !(reply.httpStatus == 409 && reply.busy) && (reply.httpStatus == 202 || reply.userAction)
    ensures e.MarkTransient? <==>
            reply.httpStatus != 200 && !(reply.httpStatus == 409 && reply.busy) && reply.httpStatus != 202 && !reply.userAction
  {
    if reply.httpStatus == 200 { return MarkSucceeded(NumberFor(bill, job)); }
    if reply.httpStatus == 409 && reply.busy { return MarkContentionRetry; }
    if reply.httpStatus == 202 || reply.userAction { return MarkNeedsReview("send"); }
    return MarkTransient("sml_send_failed");
  }

  /** The checks up to a bill that fits the job; `exit` is what a run that stops there does. */
  method Preflight(job: Job, r: Readings) returns (exit: seq<Effect>)
    ensures exit == [] <==> AtLink(job, r)
    ensures exit != [] ==> OneOutcome(exit) && NoSend(exit)
    ensures exit != [] && exit[0].PauseForRouteChange? <==> Available(r.setting) && !RouteHolds(job, r)
    ensures exit != [] ==>
              && (Last(exit).MarkCancelled? <==> EndsCancelled(job, r))
              && (Last(exit).MarkContentionRetry? <==> EndsInContention(job, r))
              && (Last(exit).MarkSucceeded? <==> EndsSucceeded(job, r))
              && (Last(exit).MarkTransient? <==> EndsTransient(job, r))
    ensures exit != [] && Last(exit).MarkSucceeded? ==> Last(exit).docNo == r.bill.value.docNo
  {
    if r.setting.None? || !r.setting.value.enabled || r.setting.value.paused { return [MarkCancelled("automation_unavailable")]; }
    if r.liveRoute == "" || r.liveRoute != r.setting.value.route || r.liveRoute != job.route {
      return [PauseForRouteChange, MarkNeedsReview("route_changed")];
    }
    if r.orderStatus.None? { return [MarkTransient("shopee_reconcile_failed")]; }
    ProceedsExactly(job.trigger, job.transitionAt, r.orderStatus.value);
    match ClassifyTrigger(job.trigger, job.transitionAt, r.orderStatus.value) {
      case Cancel => return [MarkCancelled("status_changed")];
      case NeedReview(code) => return [MarkNeedsReview(code)];
      case Proceed =>
    }
    if r.creation.httpStatus >= 400 && r.creation.billId == "" {
      var e := CreationExit(r.creation);
      return [e];
    }
    if r.creation.billId == "" && r.snapshotBillId == "" { return [MarkTransient("bill_missing")]; }
    if r.bill.None? { return [MarkTransient("bill_load_failed")]; }
    var bill := r.bill.value;
    if bill.status.BillSent? && bill.docNo != "" { return [MarkSucceeded(bill.docNo)]; }
    if bill.status.NeedsReview? { return [MarkNeedsReview("bill_needs_review")]; }
    if !bill.status.Pending? && !bill.status.Failed? { return [MarkNeedsReview("bill_status_blocked")]; }
    if job.fingerprint.Some? && job.fingerprint.value != AmountFingerprint(bill.items) { return [MarkNeedsReview("bill_changed")]; }
    return [];
  }

  /**
   * One leased run. Every path makes exactly one outcome call, which kind is said by the four `Ends`
   * conditions (a review otherwise); the bill is sent exactly when `Sends` holds, with the items and the
   * time read last, and a job whose send was answered with 200 is completed.
   */
  method ProcessAutoSMLJob(job: Job, r: Readings) returns (effects: seq<Effect>)
    ensures OneOutcome(effects)
    ensures Last(effects).MarkCancelled? <==> EndsCancelled(job, r)
    ensures Last(effects).MarkContentionRetry? <==> EndsInContention(job, r)
    ensures Last(effects).MarkSucceeded? <==> EndsSucceeded(job, r)
    ensures Last(effects).MarkTransient? <==> EndsTransient(job, r)
    ensures !Sends(job, r) ==> NoSend(effects)
    ensures Sends(job, r) ==>
              && |effects| == 4 && effects[0] == LinkBill(AmountFingerprint(r.bill.value.items))
              && effects[1] == GetOrSetDocumentTime(r.now) && effects[2] == SendBill(r.billAgain.value.items, r.storedTime.value)
    ensures Sends(job, r) && r.sending.httpStatus == 200 ==>
              var bill := if r.reloaded.Some? then r.reloaded.value else r.billAgain.value;
              Last(effects) == MarkSucceeded(if bill.docNo != "" then bill.docNo else job.docNo)
    ensures Sends(job, r) ==>
              (Last(effects).MarkNeedsReview? <==>
               r.sending.httpStatus == 202
               || (r.sending.httpStatus != 200 && !(r.sending.httpStatus == 409 && r.sending.busy) && r.sending.userAction))
    ensures effects[0].PauseForRouteChange? <==> Available(r.setting) && !RouteHolds(job, r)
  {
    effects := Preflight(job, r);
    if effects != [] { return; }
    var fingerprint := AmountFingerprint(r.bill.value.items);
    var link := LinkBill(fingerprint);
    if !r.linked { return [link, MarkTransient("job_link_failed")]; }
    if r.settingAgain.None? || !r.settingAgain.value.enabled || r.settingAgain.value.paused {
      return [link, MarkCancelled("automation_stopped")];
    }
    if r.liveRouteAgain == "" || r.liveRouteAgain != r.settingAgain.value.route {
      return [link, PauseForRouteChange, MarkNeedsReview("route_changed")];
    }
    if r.billAgain.None? { return [link, MarkTransient("bill_reload_failed")]; }
    var bill := r.billAgain.value;
    if bill.status.BillSent? { return [link, MarkSucceeded(NumberFor(bill, job))]; }
    if AmountFingerprint(bill.items) != fingerprint { return [link, MarkNeedsReview("bill_changed")]; }
    var time := GetOrSetDocumentTime(r.now);
    if r.storedTime.None? { return [link, time, MarkTransient("document_time_persist_failed")]; }
    var send := SendBill(bill.items, r.storedTime.value);
    if r.reloaded.Some? { bill := r.reloaded.value; }
    var outcome := SendExit(r.sending, bill, job);
    return [link, time, send, outcome];
  }

  /** The same readings, but with the shop and the live configuration moved to another route in between. */
  function Rerouted(r: Readings, route: string): Readings {
    r.(settingAgain := Some(Setting(true, false, route)), liveRouteAgain := route)
  }

  /**
   * The second route check compares the live route with the setting read at that moment only. A run
   * that sends does so on the job's own route exactly when the setting still names that route; moving
   * setting and live route to any other route in between does not stop it.
   */
  lemma SecondRouteExactly(job: Job, r: Readings)
    requires Sends(job, r)
    ensures r.liveRouteAgain == job.route <==> r.settingAgain.value.route == r.setting.value.route
    ensures forall x: string :: x != "" ==> Sends(job, Rerouted(r, x))
  {
  }

  /** Readings under which a job queued for one route is sent on another. */
  lemma RouteSwitched() returns (job: Job, r: Readings)
    ensures Sends(job, r) && r.liveRouteAgain != job.route
  {
    var bill := Bill(Pending, "", []);
    job := Job("A", ReadyToShip, Some(1), None, "");
    r := Readings(Some(Setting(true, false, "A")), "A", Some(ReadyToShip), "B1", Creation(200, "B1", OtherReason, false, false),
                  Some(bill), true, Some(Setting(true, false, "B")), "B", Some(bill), "10:00", Some("10:00"),
                  SendReply(200, false, false), None);
  }
}
