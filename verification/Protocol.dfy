/**
 * One sale bill, any number of senders, operators and late POSTs, as a step system.
 * A sender's database calls and POSTs are separate steps, so they interleave freely.
 */
module Protocol {
  import opened Wrappers
  import opened Bills
  import opened Attempts
  import opened Client
  import opened Sender

  /**
   * The code replays expired `sending` and `unknown` attempts and its sale-order client posts
   * again after an unanswered POST; `routes` are the routes the bill may take.
   */
  datatype Policy = Policy(
    replaySending: bool, replayUnknown: bool, resend: bool, routes: set<Route>,
    mode: ConversionMode, reviewRequired: bool)

  function Claimable(p: Policy): set<AttemptState> {
    {FailedExactRetry} + (if p.replaySending then {Sending} else {}) + (if p.replayUnknown then {Unknown} else {})
  }

  predicate CodePolicy(p: Policy) {
    p.replaySending && p.replayUnknown && p.resend && p.routes == {SaleOrder, SaleInvoice}
  }

  /** What one bill revision held. */
  datatype Version = Version(items: seq<BillItem>, reviewed: Option<Fingerprint>)

  datatype Worker =
    | HasRow(row: BillRow, hasAttempt: bool)
    | Loaded(view: View, at: nat)
    | Prepared(draft: Draft, revision: nat, at: nat)
    | Replaying
    | Marking
    | Executing(attempt: Attempt, tries: seq<Try>, pending: Option<nat>, lost: bool)
    | Gone

  datatype Request = Request(payload: Payload, answer: Option<Answer>)

  /** `own` tells documents created by this bill's POSTs from everyone else's. */
  datatype Doc = Doc(payload: Payload, own: bool)

  /** A recorded outcome: the lease it was recorded under and the answer it rests on. */
  datatype Record = Record(lease: nat, owner: nat, completion: Completion, reply: Option<Answer>)

  datatype State = State(
    t: Tables, log: seq<Version>, confirmed: seq<nat>,
    workers: map<nat, Worker>, next: nat,
    requests: seq<Request>, docs: map<string, Doc>, records: seq<Record>, now: int)

  // ----- the ERP -----

  /**
   * What the ERP may answer: one document per number, equal bytes are never rejected,
   * different bytes are never accepted, and a rejection creates nothing.
   */
  predicate ErpAllows(docs: map<string, Doc>, payload: Payload, a: Answer, creates: bool) {
    if payload.docNo !in docs then
      !a.mismatch && (if creates then !Rejects(a) else !Accepts(a))
    else
      !creates &&
      (if docs[payload.docNo].payload == payload then !Rejects(a) && !a.mismatch else !Accepts(a))
  }

  // ----- steps -----

  datatype Step =
    | Begin
    | ReadItems(id: nat)
    | Check(id: nat, options: Options)
    | WriteReview(id: nat)
    | CreateStep(id: nat, dependenciesFresh: bool)
    | ClaimStep(id: nat)
    | Post(id: nat)
    | Process(request: nat, answer: Answer, creates: bool)
    | Receive(id: nat, whole: bool, parsed: bool)
    | GiveUp(id: nat)
    | Heartbeat(id: nat, applied: bool, acknowledged: bool)
    | FinishStep(id: nat, setFailure: bool, applied: bool)
    | Crash(id: nat)
    | Foreign(payload: Payload)
    | InsertStep(at: nat, item: BillItem)
    | DeleteStep(at: nat)
    | ChangeStep(at: nat, change: ItemChange)
    | MasterStep(at: nat, master: Master, enforce: bool)
    | Confirm(version: nat)
    | PromoteStep
    | Regenerate(loaded: BillStatus, docNo: string)
    | Archive(on: bool)
    | Tick(seconds: nat)

  function Put(s: State, id: nat, w: Worker): State {
    s.(workers := s.workers[id := w])
  }

  /** An operator's transaction; a changed revision is logged. */
  function Edited(s: State, t: Tables): State {
    s.(t := t, log := if t.row.revision == s.t.row.revision then s.log else s.log + [Version(t.items, t.row.reviewed)])
  }

  function WorkerIs(s: State, id: nat): Worker {
    if id in s.workers then s.workers[id] else Gone
  }

  function CheckStep(p: Policy, s: State, id: nat, o: Options): State {
    var w := WorkerIs(s, id);
    if !w.Loaded? || o.route !in p.routes || o.mode != p.mode then s
    else
      match Prepare(w.view, p.reviewRequired, o)
      case Refused => Put(s, id, Gone)
      case Review => Put(s, id, Marking)
      case Replay => Put(s, id, Replaying)
      case Go(draft) => Put(s, id, Prepared(draft, w.view.row.revision, w.at))
  }

  function CreateBy(s: State, id: nat, dependenciesFresh: bool): State {
    var w := WorkerIs(s, id);
    if !w.Prepared? then s
    else
      match CreateOutcomeOf(s.t, w.revision, w.draft, dependenciesFresh)
      case CreatedAttempt =>
        var t := Create(s.t, w.revision, w.draft, dependenciesFresh, id, s.now);
        Put(s.(t := t), id, Executing(t.attempt.value, [], None, false))
      case DependencyStale => Put(s, id, Marking)
      case _ => Put(s, id, Gone)
  }

  function ClaimBy(p: Policy, s: State, id: nat): State {
    if !WorkerIs(s, id).Replaying? then s
    else if ClaimOutcomeOf(s.t, Claimable(p), id, s.now) != Claimed then Put(s, id, Gone)
    else
      var t := Claim(s.t, Claimable(p), id, s.now);
      Put(s.(t := t), id, Executing(t.attempt.value, [], None, false))
  }

  function PostBy(p: Policy, s: State, id: nat): State {
    var w := WorkerIs(s, id);
    if !w.Executing? || w.pending.Some? || Over(w.attempt.route, p.resend, w.tries) then s
    else Put(s.(requests := s.requests + [Request(w.attempt.payload, None)]), id, w.(pending := Some(|s.requests|)))
  }

  function ProcessAt(s: State, r: nat, a: Answer, creates: bool): State {
    if r >= |s.requests| || s.requests[r].answer.Some? || !ErpAllows(s.docs, s.requests[r].payload, a, creates) then s
    else
      var payload := s.requests[r].payload;
      s.(requests := s.requests[r := Request(payload, Some(a))],
         docs := if creates then s.docs[payload.docNo := Doc(payload, true)] else s.docs)
  }

  function Blank(a: Answer): Answer {
    Answer(a.status, false, false, "", NoCore, false)
  }

  function ReceiveBy(s: State, id: nat, whole: bool, parsed: bool): State {
    var w := WorkerIs(s, id);
    if !w.Executing? || w.pending.None? || w.pending.value >= |s.requests| || s.requests[w.pending.value].answer.None? then s
    else
      var a := s.requests[w.pending.value].answer.value;
      var got := if whole then Read(a) else Unread(if parsed then a else Blank(a));
      Put(s, id, w.(tries := w.tries + [got], pending := None))
  }

  function GiveUpBy(s: State, id: nat): State {
    var w := WorkerIs(s, id);
    if !w.Executing? || w.pending.None? then s
    else Put(s, id, w.(tries := w.tries + [NoAnswer], pending := None))
  }

  function HeartbeatBy(s: State, id: nat, applied: bool, acknowledged: bool): State {
    var w := WorkerIs(s, id);
    if !w.Executing? || w.lost then s
    else
      var after := if applied then s.(t := Renew(s.t, id, s.now)) else s;
      Put(after, id, w.(lost := !(applied && acknowledged && Holds(s.t, id))))
  }

  function DecisionOf(w: Worker, setFailure: bool): Option<Completion>
    requires w.Executing?
  {
    Decide(w.attempt.docNo, w.attempt.profile, ResultOf(w.tries), setFailure)
  }

  /** The finishing write reaches the database, is accepted there and so leaves a record. */
  predicate Recorded(p: Policy, s: State, id: nat, setFailure: bool, applied: bool) {
    var w := WorkerIs(s, id);
    && w.Executing? && w.pending.None? && Over(w.attempt.route, p.resend, w.tries)
    && !w.lost && applied && DecisionOf(w, setFailure).Some? && Holds(s.t, id)
  }

  function FinishBy(p: Policy, s: State, id: nat, setFailure: bool, applied: bool): State {
    var w := WorkerIs(s, id);
    if !w.Executing? || w.pending.Some? || !Over(w.attempt.route, p.resend, w.tries) then s
    else if !Recorded(p, s, id, setFailure, applied) then Put(s, id, Gone)
    else
      var c := DecisionOf(w, setFailure).value;
      Put(s.(t := Finish(s.t, id, c),
             records := s.records + [Record(w.attempt.leases, id, c, ResultOf(w.tries).response)]), id, Gone)
  }

  /** Operator steps, the archive switch and the clock: nothing but the bill's own row and items. */
  predicate Edits(e: Step) {
    e.InsertStep? || e.DeleteStep? || e.ChangeStep? || e.MasterStep? || e.Confirm? || e.PromoteStep?
    || e.Regenerate? || e.Archive? || e.Tick?
  }

  function Operate(s: State, e: Step): State {
    match e
    case InsertStep(at, item) => Edited(s, InsertItem(s.t, at, item))
    case DeleteStep(at) => Edited(s, DeleteItem(s.t, at))
    case ChangeStep(at, change) => Edited(s, UpdateItem(s.t, at, change))
    case MasterStep(at, master, enforce) => Edited(s, UseMaster(s.t, at, master, enforce))
    case Confirm(k) =>
      if k >= |s.log| || !Editable(s.t) then s
      else Edited(s, ConfirmReview(s.t, AmountFingerprint(s.log[k].items))).(confirmed := s.confirmed + [k])
    case PromoteStep => Edited(s, Promote(s.t))
    case Regenerate(loaded, docNo) => Edited(s, RegenerateDocNo(s.t, loaded, docNo))
    case Archive(on) => s.(t := s.t.(row := s.t.row.(archived := on)))
    case Tick(seconds) => s.(now := s.now + seconds)
    case _ => s
  }

  /** Workers, the ERP and other people's documents. */
  function Act(p: Policy, s: State, e: Step): State {
    match e
    case Begin => Put(s, s.next, HasRow(s.t.row, s.t.attempt.Some?)).(next := s.next + 1)
    case ReadItems(id) =>
      var w := WorkerIs(s, id);
      if !w.HasRow? then s else Put(s, id, Loaded(View(w.row, w.hasAttempt, s.t.items), s.t.row.revision))
    case Check(id, o) => CheckStep(p, s, id, o)
    case WriteReview(id) => if !WorkerIs(s, id).Marking? then s else Put(s.(t := MarkNeedsReview(s.t)), id, Gone)
    case CreateStep(id, upToDate) => CreateBy(s, id, upToDate)
    case ClaimStep(id) => ClaimBy(p, s, id)
    case Post(id) => PostBy(p, s, id)
    case Process(r, a, creates) => ProcessAt(s, r, a, creates)
    case Receive(id, whole, parsed) => ReceiveBy(s, id, whole, parsed)
    case GiveUp(id) => GiveUpBy(s, id)
    case Heartbeat(id, applied, acknowledged) => HeartbeatBy(s, id, applied, acknowledged)
    case FinishStep(id, setFailure, applied) => FinishBy(p, s, id, setFailure, applied)
    case Crash(id) => if id in s.workers then Put(s, id, Gone) else s
    case Foreign(payload) =>
      if payload.docNo in s.docs then s else s.(docs := s.docs[payload.docNo := Doc(payload, false)])
    case _ => s
  }

  function Next(p: Policy, s: State, e: Step): State {
    if Edits(e) then Operate(s, e) else Act(p, s, e)
  }

  function Run(p: Policy, s: State, steps: seq<Step>): State
    decreases |steps|
  {
    if steps == [] then s else Run(p, Next(p, s, steps[0]), steps[1..])
  }

  /** A bill that was never sent: sendable, without an attempt, a confirmation or a worker. */
  function Start(items: seq<BillItem>, status: BillStatus, docNo: Option<string>, docs: map<string, Doc>): State {
    State(Tables(BillRow(status, false, docNo, 0, None), items, None), [Version(items, None)], [],
          map[], 0, [], docs, [], 0)
  }

  predicate Fresh(status: BillStatus, docs: map<string, Doc>) {
    status != BillSent && forall d :: d in docs ==> !docs[d].own && docs[d].payload.docNo == d
  }

  lemma {:induction false} RunAppend(p: Policy, s: State, a: seq<Step>, b: seq<Step>)
    ensures Run(p, s, a + b) == Run(p, Run(p, s, a), b)
    decreases |a|
  {
    if a == [] {
      assert a + b == b;
    } else {
      assert (a + b)[0] == a[0] && (a + b)[1..] == a[1..] + b;
      RunAppend(p, Next(p, s, a[0]), a[1..], b);
    }
  }

  /** The code's policy claims exactly the states the repository claims. */
  lemma CodeClaims(p: Policy)
    requires CodePolicy(p)
    ensures Claimable(p) == CODE_CLAIMABLE
  {
  }

  // ----- single steps -----

  /**
   * A heartbeat extends the lease exactly for a worker still holding the attempt, and a worker that does not
   * see it confirmed counts its lease as lost for good and records nothing any more.
   */
  lemma HeartbeatExactly(p: Policy, s: State, id: nat, applied: bool, acknowledged: bool, setFailure: bool, written: bool)
    requires id in s.workers && s.workers[id].Executing? && !s.workers[id].lost
    ensures var after := Next(p, s, Heartbeat(id, applied, acknowledged));
            var held := s.t.attempt.Some? && s.t.attempt.value.state == Sending && s.t.attempt.value.owner == Some(id);
            && (applied && held ==> after.t == s.t.(attempt := Some(s.t.attempt.value.(leaseUntil := Some(s.now + 300)))))
            && (!(applied && held) ==> after.t == s.t)
            && id in after.workers && after.workers[id].Executing?
            && (after.workers[id].lost <==> !applied || !held || !acknowledged)
            && after.workers[id].tries == s.workers[id].tries && after.workers[id].pending == s.workers[id].pending
            && (after.workers[id].lost ==> Next(p, after, FinishStep(id, setFailure, written)).t == after.t)
  {
  }

  /** The answer a worker takes in is the one the ERP gave to its own POST: in full, cut short, or as a bare status. */
  lemma ReceiveExactly(p: Policy, s: State, id: nat, whole: bool, parsed: bool)
    requires id in s.workers && s.workers[id].Executing? && s.workers[id].pending.Some?
    requires s.workers[id].pending.value < |s.requests| && s.requests[s.workers[id].pending.value].answer.Some?
    ensures var after := Next(p, s, Receive(id, whole, parsed));
            var answer := s.requests[s.workers[id].pending.value].answer.value;
            && id in after.workers && after.workers[id].Executing? && after.workers[id].pending == None && after.t == s.t
            && |after.workers[id].tries| == |s.workers[id].tries| + 1 && after.workers[id].tries[..|s.workers[id].tries|] == s.workers[id].tries
            && var got := after.workers[id].tries[|s.workers[id].tries|];
               && (whole <==> got.Read?) && (!whole <==> got.Unread?) && got.answer.status == answer.status
               && (whole || parsed ==> got.answer == answer)
               && (!whole && !parsed ==> !got.answer.success && got.answer.docNo == "")
  {
  }

  /** Other people's documents occupy their numbers, and never replace one. */
  lemma ForeignExactly(p: Policy, s: State, payload: Payload)
    ensures var after := Next(p, s, Foreign(payload));
            && payload.docNo in after.docs && (forall d :: d in s.docs ==> d in after.docs && after.docs[d] == s.docs[d])
            && (payload.docNo !in s.docs ==> after.docs[payload.docNo].payload == payload && !after.docs[payload.docNo].own)
            && after == s.(docs := after.docs)
  {
  }

  /** The bill as it stands admits a first attempt with this number and revision. */
  predicate Admits(t: Tables, docNo: string, revision: nat) {
    && docNo != "" && t.attempt.None? && t.row.revision == revision && !t.row.archived
    && (t.row.status == Pending || t.row.status == Failed || t.row.status == NeedsReview)
  }

  /**
   * A prepared request becomes the attempt exactly when the bill admits it and its catalogs are as they were; if
   * only they are not, the bill is sent to review next; in any other case the sender gives up.
   */
  lemma CreateExactly(p: Policy, s: State, id: nat, upToDate: bool)
    requires id in s.workers && s.workers[id].Prepared?
    ensures var w, after := s.workers[id], Next(p, s, CreateStep(id, upToDate));
            var admitted := Admits(s.t, w.draft.docNo, w.revision);
            && id in after.workers
            && (admitted && upToDate ==>
                  && after.workers[id].Executing? && after.t.attempt == Some(after.workers[id].attempt)
                  && after.workers[id].attempt.payload == w.draft.payload && after.workers[id].attempt.docNo == w.draft.docNo
                  && after.workers[id].attempt.owner == Some(id) && after.workers[id].attempt.leaseUntil == Some(s.now + 300)
                  && after.t.row == s.t.row.(docNo := Some(w.draft.docNo)) && after.t.items == s.t.items)
            && (admitted && !upToDate ==>
                  && after.t == s.t && after.workers[id] == Marking
                  && Next(p, after, WriteReview(id)).t == s.t.(row := s.t.row.(status := NeedsReview, docNo := None)))
            && (!admitted ==> after.t == s.t && after.workers[id] == Gone)
  {
  }

  /** While a bill is archived no operator changes its items and no sender starts an attempt. */
  lemma ArchivedExactly(p: Policy, s: State, e: Step, on: bool)
    ensures var after := Next(p, s, Archive(on)); after == s.(t := s.t.(row := after.t.row)) && after.t.row == s.t.row.(archived := on)
    ensures s.t.row.archived ==> Next(p, s, e).t.items == s.t.items && (s.t.attempt.None? ==> Next(p, s, e).t.attempt.None?)
  {
  }
}
