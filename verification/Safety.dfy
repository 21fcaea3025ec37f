/** What every step keeps, and what therefore holds of every run: one document, frozen lines, fenced outcomes. */
module Safety {
  import opened Wrappers
  import opened Bills
  import opened Attempts
  import opened Client
  import opened Sender
  import opened Protocol

  // ----- what only grows -----

  predicate SamePlan(a: Attempt, b: Attempt) {
    a.docNo == b.docNo && a.route == b.route && a.payload == b.payload && a.profile == b.profile && a.revision == b.revision
  }

  predicate LaterTables(s: State, s2: State) {
    && |s.log| <= |s2.log| && (forall i :: 0 <= i < |s.log| ==> s2.log[i] == s.log[i])
    && (s.t.attempt.Some? ==>
          s2.t.attempt.Some? && SamePlan(s.t.attempt.value, s2.t.attempt.value)
          && s.t.attempt.value.leases <= s2.t.attempt.value.leases)
    && s.next <= s2.next
    && |s.records| <= |s2.records| && (forall i :: 0 <= i < |s.records| ==> s2.records[i] == s.records[i])
  }

  predicate LaterErp(s: State, s2: State) {
    && |s.requests| <= |s2.requests|
    && (forall i :: 0 <= i < |s.requests| ==>
          s2.requests[i].payload == s.requests[i].payload
          && (s.requests[i].answer.Some? ==> s2.requests[i].answer == s.requests[i].answer))
    && (forall d :: d in s.docs ==> d in s2.docs && s2.docs[d] == s.docs[d])
  }

  /** Frozen bill: once an attempt exists no operator step changes items, confirmation or revision. */
  lemma EditsFrozen(s: State, e: Step)
    requires Edits(e)
    ensures var s2 := Operate(s, e);
            && s2.t.attempt == s.t.attempt && s2.workers == s.workers && s2.next == s.next
            && s2.requests == s.requests && s2.docs == s.docs && s2.records == s.records
            && (s.t.attempt.Some? ==>
                  s2.t.items == s.t.items && s2.t.row.(archived := s.t.row.archived) == s.t.row && s2.log == s.log)
  {
  }

  lemma OperateLogs(s: State, e: Step)
    requires Edits(e)
    ensures Operate(s, e).log == s.log || (|Operate(s, e).log| == |s.log| + 1 && Operate(s, e).log[..|s.log|] == s.log)
  {
  }

  lemma ActLaterTables(p: Policy, s: State, e: Step)
    requires !Edits(e)
    ensures LaterTables(s, Act(p, s, e))
  {
  }

  lemma ActLaterErp(p: Policy, s: State, e: Step)
    requires !Edits(e)
    ensures LaterErp(s, Act(p, s, e))
  {
  }

  lemma NextLater(p: Policy, s: State, e: Step)
    ensures LaterTables(s, Next(p, s, e)) && LaterErp(s, Next(p, s, e))
  {
    if Edits(e) {
      EditsFrozen(s, e);
      OperateLogs(s, e);
    } else {
      ActLaterTables(p, s, e);
      ActLaterErp(p, s, e);
    }
  }

  // ----- the invariant, part by part -----

  predicate LogInv(s: State) {
    |s.log| == s.t.row.revision + 1 && s.log[s.t.row.revision] == Version(s.t.items, s.t.row.reviewed)
  }

  /** Every stored confirmation is the fingerprint of a version an operator had loaded. */
  predicate ConfirmedAt(s: State, i: nat)
    requires i < |s.log|
  {
    s.log[i].reviewed.Some? ==>
      exists c :: 0 <= c < |s.confirmed| && s.confirmed[c] < i && s.log[i].reviewed.value == AmountFingerprint(s.log[s.confirmed[c]].items)
  }

  predicate ConfirmInv(s: State) {
    forall i :: 0 <= i < |s.log| ==> ConfirmedAt(s, i)
  }

  predicate AttemptInv(p: Policy, s: State) {
    s.t.attempt.Some? ==>
      var a := s.t.attempt.value;
      && a.revision == s.t.row.revision && a.route in p.routes
      && Sound(Draft(a.docNo, a.route, a.payload, a.profile), s.t.items, p.mode)
      && (p.reviewRequired ==> AmountReviewed(s.t.row, s.t.items))
  }

  predicate RequestInv(s: State) {
    s.requests != [] ==>
      s.t.attempt.Some? && forall r :: 0 <= r < |s.requests| ==> s.requests[r].payload == s.t.attempt.value.payload
  }

  /** A document with exactly the attempt's bytes stands under the attempt's number. */
  predicate Present(s: State) {
    s.t.attempt.Some? &&
    var payload := s.t.attempt.value.payload;
    payload.docNo in s.docs && s.docs[payload.docNo].payload == payload
  }

  predicate DocInv(s: State) {
    && (forall d :: d in s.docs ==> s.docs[d].payload.docNo == d)
    && (forall d :: d in s.docs && s.docs[d].own ==> s.t.attempt.Some? && s.docs[d].payload == s.t.attempt.value.payload)
    && (forall r :: 0 <= r < |s.requests| && s.requests[r].answer.Some? && Accepts(s.requests[r].answer.value) ==> Present(s))
  }

  predicate TokensInv(s: State) {
    forall id :: id in s.workers ==> id < s.next
  }

  /** The owner is a worker that got a lease. */
  predicate OwnerInv(s: State) {
    s.t.attempt.Some? ==>
      var a := s.t.attempt.value;
      && a.leases >= 1
      && (a.owner.Some? ==> a.state.Sending? && a.owner.value in s.workers)
      && (a.owner.Some? ==> s.workers[a.owner.value].Executing? || s.workers[a.owner.value].Gone?)
  }

  predicate LeaseInv(s: State) {
    TokensInv(s) && OwnerInv(s)
  }

  predicate GoodRecord(s: State, r: Record) {
    && s.t.attempt.Some? && 1 <= r.lease <= s.t.attempt.value.leases && !r.completion.state.Sending?
    && (r.completion.state.Sent? ==>
          Present(s) && r.reply.Some? && Accepts(r.reply.value)
          && (r.reply.value.docNo == "" || r.reply.value.docNo == s.t.attempt.value.docNo))
    && (r.completion.core in {Some(Created), Some(AlreadyExists)} || r.completion.status == BillSent ==> r.completion.state.Sent?)
  }

  predicate RecordInv(s: State) {
    && (forall k :: 0 <= k < |s.records| ==> GoodRecord(s, s.records[k]))
    && (forall j, k :: 0 <= j < k < |s.records| ==> s.records[j].lease < s.records[k].lease)
    && (s.t.attempt.Some? && s.t.attempt.value.state.Sending? ==>
          forall k :: 0 <= k < |s.records| ==> s.records[k].lease < s.t.attempt.value.leases)
    && (s.t.attempt.Some? && !s.t.attempt.value.state.Sending? ==>
          s.records != [] && s.records[|s.records| - 1].completion.state == s.t.attempt.value.state)
  }

  /** Database marks that say the document exists. */
  predicate MarkInv(s: State) {
    && (s.t.row.status == BillSent ==> s.t.attempt.Some? && s.t.attempt.value.state.Sent?)
    && (s.t.attempt.Some? && s.t.attempt.value.core in {Created, AlreadyExists} ==> s.t.attempt.value.state.Sent?)
  }

  predicate RowSeen(s: State, row: BillRow) {
    row.revision < |s.log| && s.log[row.revision].reviewed == row.reviewed
  }

  predicate OnlyIfPresent(s: State, tries: seq<Try>) {
    forall i :: 0 <= i < |tries| && tries[i].Read? && Accepts(tries[i].answer) ==> Present(s)
  }

  predicate WorkerInv(p: Policy, s: State, id: nat, w: Worker) {
    match w
    case HasRow(row, _) => RowSeen(s, row)
    case Loaded(view, at) => RowSeen(s, view.row) && view.row.revision <= at < |s.log| && s.log[at].items == view.items
    case Prepared(draft, revision, at) =>
      && revision <= at < |s.log| && draft.route in p.routes && Sound(draft, s.log[at].items, p.mode)
      && (p.reviewRequired ==> s.log[revision].reviewed == Some(AmountFingerprint(s.log[at].items)))
    case Executing(a, tries, pending, _) =>
      && s.t.attempt.Some? && SamePlan(a, s.t.attempt.value) && 1 <= a.leases <= s.t.attempt.value.leases
      && (Holds(s.t, id) ==> a.leases == s.t.attempt.value.leases)
      && (pending.Some? ==> pending.value < |s.requests|)
      && OnlyIfPresent(s, tries)
    case _ => true
  }

  predicate WorkersInv(p: Policy, s: State) {
    forall id :: id in s.workers ==> WorkerInv(p, s, id, s.workers[id])
  }

  predicate Inv(p: Policy, s: State) {
    LogInv(s) && ConfirmInv(s) && AttemptInv(p, s) && RequestInv(s) && DocInv(s)
    && LeaseInv(s) && RecordInv(s) && MarkInv(s) && WorkersInv(p, s)
  }

  lemma StartInv(p: Policy, items: seq<BillItem>, status: BillStatus, docNo: Option<string>, docs: map<string, Doc>)
    requires Fresh(status, docs)
    ensures Inv(p, Start(items, status, docNo, docs))
  {
  }

  // ----- each part is kept -----

  lemma OperateKeepsLog(s: State, e: Step)
    requires Edits(e) && LogInv(s)
    ensures LogInv(Operate(s, e))
  {
  }

  /** Workers never touch what the log records. */
  lemma ActKeepsItems(p: Policy, s: State, e: Step)
    requires !Edits(e)
    ensures var s2 := Act(p, s, e);
            s2.log == s.log && s2.confirmed == s.confirmed && s2.t.items == s.t.items
            && s2.t.row.revision == s.t.row.revision && s2.t.row.reviewed == s.t.row.reviewed
  {
  }

  lemma LogKept(p: Policy, s: State, e: Step)
    requires LogInv(s)
    ensures LogInv(Next(p, s, e))
  {
    if Edits(e) { OperateKeepsLog(s, e); } else { ActKeepsItems(p, s, e); }
  }

  lemma RequestLater(s: State, s2: State)
    requires RequestInv(s) && LaterTables(s, s2) && LaterErp(s, s2)
    requires |s2.requests| > |s.requests| ==> s.t.attempt.Some?
    requires forall r :: |s.requests| <= r < |s2.requests| ==> s2.requests[r].payload == s.t.attempt.value.payload
    ensures RequestInv(s2)
  {
    forall r | 0 <= r < |s2.requests| ensures s2.requests[r].payload == s2.t.attempt.value.payload {
      var request := s2.requests[r];
      if r < |s.requests| { assert s.requests[r].payload == request.payload; }
    }
  }

  lemma OnlyPostAdds(p: Policy, s: State, e: Step)
    requires !e.Post?
    ensures |Next(p, s, e).requests| == |s.requests|
  {
  }

  /** A worker posts the payload of the attempt it was leased. */
  lemma PostAddsPayload(p: Policy, s: State, id: nat)
    requires WorkersInv(p, s)
    ensures var s2 := PostBy(p, s, id);
            s2 == s || (s.t.attempt.Some? && s2.requests == s.requests + [Request(s.t.attempt.value.payload, None)])
  {
    if id in s.workers { assert WorkerInv(p, s, id, s.workers[id]); }
  }

  lemma RequestKept(p: Policy, s: State, e: Step)
    requires WorkersInv(p, s) && RequestInv(s)
    ensures RequestInv(Next(p, s, e))
  {
    NextLater(p, s, e);
    if e.Post? { PostAddsPayload(p, s, e.id); } else { OnlyPostAdds(p, s, e); }
    RequestLater(s, Next(p, s, e));
  }

  lemma OperateMarks(s: State, e: Step)
    requires Edits(e)
    ensures Operate(s, e).t.row.status == BillSent ==> s.t.row.status == BillSent
    ensures Operate(s, e).t.attempt == s.t.attempt
  {
  }

  lemma ActMarks(p: Policy, s: State, e: Step)
    requires !Edits(e) && MarkInv(s)
    ensures MarkInv(Act(p, s, e))
  {
  }

  lemma MarkKept(p: Policy, s: State, e: Step)
    requires MarkInv(s)
    ensures MarkInv(Next(p, s, e))
  {
    if Edits(e) { OperateMarks(s, e); } else { ActMarks(p, s, e); }
  }

  lemma PresentLater(s: State, s2: State)
    requires LaterTables(s, s2) && LaterErp(s, s2) && Present(s)
    ensures Present(s2)
  {
  }

  predicate SameAnswers(s: State, s2: State) {
    && s2.docs == s.docs
    && forall r :: 0 <= r < |s2.requests| && s2.requests[r].answer.Some? ==> r < |s.requests| && s.requests[r] == s2.requests[r]
  }

  lemma ActStill(p: Policy, s: State, e: Step)
    requires !Edits(e) && !e.Process? && !e.Foreign?
    ensures SameAnswers(s, Act(p, s, e))
  {
  }

  /** Between the ERP's own steps documents and answers stand still. */
  lemma ErpStill(p: Policy, s: State, e: Step)
    requires !e.Process? && !e.Foreign?
    ensures SameAnswers(s, Next(p, s, e))
  {
    if Edits(e) { EditsFrozen(s, e); } else { ActStill(p, s, e); }
  }

  lemma ProcessKeepsDocs(p: Policy, s: State, r: nat, a: Answer, creates: bool)
    requires Inv(p, s)
    ensures DocInv(ProcessAt(s, r, a, creates))
  {
    var s2 := ProcessAt(s, r, a, creates);
    NextLater(p, s, Process(r, a, creates));
    if s2 != s {
      forall q | 0 <= q < |s2.requests| && s2.requests[q].answer.Some? && Accepts(s2.requests[q].answer.value)
        ensures Present(s2)
      {
        if q != r { assert s.requests[q] == s2.requests[q]; PresentLater(s, s2); }
      }
    }
  }

  lemma DocKept(p: Policy, s: State, e: Step)
    requires Inv(p, s)
    ensures DocInv(Next(p, s, e))
  {
    var s2 := Next(p, s, e);
    if e.Process? {
      ProcessKeepsDocs(p, s, e.request, e.answer, e.creates);
    } else {
      NextLater(p, s, e);
      if !e.Foreign? { ErpStill(p, s, e); }
      forall r | 0 <= r < |s2.requests| && s2.requests[r].answer.Some? && Accepts(s2.requests[r].answer.value)
        ensures Present(s2)
      {
        assert s.requests[r] == s2.requests[r];
        PresentLater(s, s2);
      }
    }
  }

  lemma ActTokens(p: Policy, s: State, e: Step)
    requires !Edits(e) && TokensInv(s)
    ensures TokensInv(Act(p, s, e))
  {
  }

  lemma ActOwner(p: Policy, s: State, e: Step)
    requires !Edits(e) && LeaseInv(s)
    ensures OwnerInv(Act(p, s, e))
  {
  }

  lemma LeaseKept(p: Policy, s: State, e: Step)
    requires LeaseInv(s)
    ensures LeaseInv(Next(p, s, e))
  {
    if Edits(e) {
      EditsFrozen(s, e);
    } else {
      ActTokens(p, s, e);
      ActOwner(p, s, e);
    }
  }

  lemma CreateKeepsAttempt(p: Policy, s: State, id: nat, upToDate: bool)
    requires LogInv(s) && AttemptInv(p, s) && WorkersInv(p, s)
    ensures AttemptInv(p, CreateBy(s, id, upToDate))
  {
    if id in s.workers { assert WorkerInv(p, s, id, s.workers[id]); }
  }

  lemma AttemptKept(p: Policy, s: State, e: Step)
    requires LogInv(s) && AttemptInv(p, s) && WorkersInv(p, s)
    ensures AttemptInv(p, Next(p, s, e))
  {
    if Edits(e) {
      EditsFrozen(s, e);
    } else if e.CreateStep? {
      CreateKeepsAttempt(p, s, e.id, e.dependenciesFresh);
    } else {
      NextLater(p, s, e);
      assert Next(p, s, e).t.items == s.t.items && Next(p, s, e).t.row.revision == s.t.row.revision
             && Next(p, s, e).t.row.reviewed == s.t.row.reviewed;
    }
  }

  lemma ConfirmedLater(s: State, s2: State, i: nat, was: nat)
    requires i < |s2.log| && was < |s.log| && was <= i
    requires ConfirmedAt(s, was) && s2.log[i].reviewed == s.log[was].reviewed
    requires LaterTables(s, s2) && |s.confirmed| <= |s2.confirmed|
    requires forall c :: 0 <= c < |s.confirmed| ==> s2.confirmed[c] == s.confirmed[c]
    ensures ConfirmedAt(s2, i)
  {
    if s.log[was].reviewed.Some? {
      var c :| 0 <= c < |s.confirmed| && s.confirmed[c] < was && s.log[was].reviewed.value == AmountFingerprint(s.log[s.confirmed[c]].items);
      assert s2.confirmed[c] == s.confirmed[c];
    }
  }

  /** A new revision carries the confirmation of the one before it, a new one, or none. */
  lemma NewVersion(p: Policy, s: State, e: Step)
    requires LogInv(s)
    ensures |Next(p, s, e).log| <= |s.log| + 1
    ensures |Next(p, s, e).log| == |s.log| + 1 && !e.Confirm? ==>
              Next(p, s, e).log[|s.log|].reviewed in {None, s.log[|s.log| - 1].reviewed}
    ensures !e.Confirm? ==> Next(p, s, e).confirmed == s.confirmed
  {
  }

  lemma ConfirmKept(p: Policy, s: State, e: Step)
    requires LogInv(s) && ConfirmInv(s)
    ensures ConfirmInv(Next(p, s, e))
  {
    var s2 := Next(p, s, e);
    NextLater(p, s, e);
    NewVersion(p, s, e);
    forall i | 0 <= i < |s2.log| ensures ConfirmedAt(s2, i) {
      if i < |s.log| {
        assert ConfirmedAt(s, i);
        ConfirmedLater(s, s2, i, i);
      } else if e.Confirm? {
        assert s2.confirmed[|s.confirmed|] == e.version;
      } else if s2.log[i].reviewed.Some? {
        assert ConfirmedAt(s, i - 1);
        ConfirmedLater(s, s2, i, i - 1);
      }
    }
  }

  // ----- workers -----

  /** The worker a step belongs to; a new one for Begin. */
  function Actor(s: State, e: Step): Option<nat> {
    match e
    case Begin => Some(s.next)
    case ReadItems(id) => Some(id)
    case Check(id, _) => Some(id)
    case WriteReview(id) => Some(id)
    case CreateStep(id, _) => Some(id)
    case ClaimStep(id) => Some(id)
    case Post(id) => Some(id)
    case Receive(id, _, _) => Some(id)
    case GiveUp(id) => Some(id)
    case Heartbeat(id, _, _) => Some(id)
    case FinishStep(id, _, _) => Some(id)
    case Crash(id) => Some(id)
    case _ => None
  }

  lemma ActOthersStay(p: Policy, s: State, e: Step, id: nat)
    requires !Edits(e) && Actor(s, e) != Some(id)
    ensures id in Act(p, s, e).workers <==> id in s.workers
    ensures id in s.workers ==> Act(p, s, e).workers[id] == s.workers[id]
  {
  }

  lemma OtherWorkersStay(p: Policy, s: State, e: Step, id: nat)
    requires Actor(s, e) != Some(id)
    ensures id in Next(p, s, e).workers <==> id in s.workers
    ensures id in s.workers ==> Next(p, s, e).workers[id] == s.workers[id]
  {
    if Edits(e) { EditsFrozen(s, e); } else { ActOthersStay(p, s, e, id); }
  }

  /** Nobody but the acting worker gains the lease. */
  lemma OthersGainNothing(p: Policy, s: State, e: Step, id: nat)
    requires Actor(s, e) != Some(id) && Holds(Next(p, s, e).t, id)
    ensures Holds(s.t, id) && Next(p, s, e).t.attempt.value.leases == s.t.attempt.value.leases
  {
  }

  lemma WorkerLater(p: Policy, s: State, s2: State, id: nat, w: Worker)
    requires WorkerInv(p, s, id, w) && LaterTables(s, s2) && LaterErp(s, s2)
    requires Holds(s2.t, id) ==> Holds(s.t, id) && s2.t.attempt.value.leases == s.t.attempt.value.leases
    ensures WorkerInv(p, s2, id, w)
  {
    if w.Executing? && Present(s) { PresentLater(s, s2); }
  }

  /** The worker that prepared a request is kept sound by the checks. */
  lemma CheckKept(p: Policy, s: State, id: nat, o: Options)
    requires id in s.workers && WorkerInv(p, s, id, s.workers[id])
    ensures WorkerInv(p, CheckStep(p, s, id, o), id, CheckStep(p, s, id, o).workers[id])
  {
    var w := s.workers[id];
    if w.Loaded? { GoesExactly(w.view, p.reviewRequired, o); }
  }

  lemma ReceiveKept(p: Policy, s: State, id: nat, whole: bool, parsed: bool)
    requires DocInv(s) && id in s.workers && WorkerInv(p, s, id, s.workers[id])
    ensures WorkerInv(p, ReceiveBy(s, id, whole, parsed), id, ReceiveBy(s, id, whole, parsed).workers[id])
  {
  }

  lemma CreateWorkerKept(p: Policy, s: State, id: nat, upToDate: bool)
    requires id in s.workers && WorkerInv(p, s, id, s.workers[id])
    ensures WorkerInv(p, CreateBy(s, id, upToDate), id, CreateBy(s, id, upToDate).workers[id])
  {
  }

  lemma ClaimWorkerKept(p: Policy, s: State, id: nat)
    requires LeaseInv(s) && id in s.workers && WorkerInv(p, s, id, s.workers[id])
    ensures WorkerInv(p, ClaimBy(p, s, id), id, ClaimBy(p, s, id).workers[id])
  {
  }

  /** Reading and leaving: the other steps that change what a worker is. */
  lemma StageKept(p: Policy, s: State, e: Step, id: nat)
    requires e == ReadItems(id) || e == WriteReview(id) || e == Crash(id) || (e.FinishStep? && e.id == id)
    requires LogInv(s) && id in s.workers && WorkerInv(p, s, id, s.workers[id])
    ensures WorkerInv(p, Act(p, s, e), id, Act(p, s, e).workers[id])
  {
  }

  lemma PostKept(p: Policy, s: State, e: Step, id: nat)
    requires e == Post(id) || e == GiveUp(id) || (e.Heartbeat? && e.id == id)
    requires id in s.workers && WorkerInv(p, s, id, s.workers[id])
    ensures WorkerInv(p, Next(p, s, e), id, Next(p, s, e).workers[id])
  {
  }

  lemma ActorKept(p: Policy, s: State, e: Step, id: nat)
    requires Inv(p, s) && Actor(s, e) == Some(id) && id in Next(p, s, e).workers
    ensures WorkerInv(p, Next(p, s, e), id, Next(p, s, e).workers[id])
  {
    if e.Begin? {
      assert LogInv(s);
    } else {
      assert id in s.workers && WorkerInv(p, s, id, s.workers[id]);
      if e.Check? { CheckKept(p, s, id, e.options); }
      else if e.Receive? { ReceiveKept(p, s, id, e.whole, e.parsed); }
      else if e.Post? || e.GiveUp? || e.Heartbeat? { PostKept(p, s, e, id); }
      else if e.CreateStep? { CreateWorkerKept(p, s, id, e.dependenciesFresh); }
      else if e.ClaimStep? { ClaimWorkerKept(p, s, id); }
      else { StageKept(p, s, e, id); }
    }
  }

  lemma WorkersKept(p: Policy, s: State, e: Step)
    requires Inv(p, s)
    ensures WorkersInv(p, Next(p, s, e))
  {
    var s2 := Next(p, s, e);
    NextLater(p, s, e);
    forall id | id in s2.workers ensures WorkerInv(p, s2, id, s2.workers[id]) {
      if Actor(s, e) == Some(id) {
        ActorKept(p, s, e, id);
      } else {
        OtherWorkersStay(p, s, e, id);
        if Holds(s2.t, id) { OthersGainNothing(p, s, e, id); }
        WorkerLater(p, s, s2, id, s.workers[id]);
      }
    }
  }

  // ----- records -----

  lemma GoodRecordLater(s: State, s2: State, r: Record)
    requires GoodRecord(s, r) && LaterTables(s, s2) && LaterErp(s, s2)
    ensures GoodRecord(s2, r)
  {
    if Present(s) { PresentLater(s, s2); }
  }

  lemma DecisionAllowed(docNo: string, profile: Profile, tries: seq<Try>, setFailure: bool)
    requires tries != [] && Decide(docNo, profile, ResultOf(tries), setFailure).Some?
    ensures var c := Decide(docNo, profile, ResultOf(tries), setFailure).value;
            && !c.state.Sending?
            && (c.core in {Some(Created), Some(AlreadyExists)} || c.status == BillSent ==> c.state.Sent?)
            && (c.state.Sent? ==>
                  var last := tries[|tries| - 1];
                  last.Read? && Accepts(last.answer) && ResultOf(tries).response == Some(last.answer)
                  && (last.answer.docNo == "" || last.answer.docNo == docNo))
  {
    SentExactly(docNo, profile, tries, setFailure);
  }

  lemma NewRecordGood(p: Policy, s: State, id: nat, setFailure: bool, applied: bool)
    requires Inv(p, s) && Recorded(p, s, id, setFailure, applied)
    ensures var w := s.workers[id];
            w.attempt.leases == s.t.attempt.value.leases &&
            GoodRecord(s, Record(w.attempt.leases, id, DecisionOf(w, setFailure).value, ResultOf(w.tries).response))
  {
    var w := s.workers[id];
    assert WorkerInv(p, s, id, w);
    DecisionAllowed(w.attempt.docNo, w.attempt.profile, w.tries, setFailure);
  }

  lemma FinishKeepsRecords(p: Policy, s: State, id: nat, setFailure: bool, applied: bool)
    requires Inv(p, s) && Recorded(p, s, id, setFailure, applied)
    ensures RecordInv(FinishBy(p, s, id, setFailure, applied))
  {
    var s2 := FinishBy(p, s, id, setFailure, applied);
    NextLater(p, s, FinishStep(id, setFailure, applied));
    NewRecordGood(p, s, id, setFailure, applied);
    forall k | 0 <= k < |s2.records| ensures GoodRecord(s2, s2.records[k]) {
      GoodRecordLater(s, s2, s2.records[k]);
    }
  }

  /** Outside a recorded finish the attempt is created, claimed, or keeps its state and lease number. */
  lemma AttemptMoves(p: Policy, s: State, e: Step)
    requires !(e.FinishStep? && Recorded(p, s, e.id, e.setFailure, e.applied))
    ensures var a, a2 := s.t.attempt, Next(p, s, e).t.attempt;
            || (a.None? && a2.None?)
            || (a.None? && a2.Some? && a2.value.state.Sending?)
            || (a.Some? && a2.Some? && a2.value.state.Sending? && a2.value.leases == a.value.leases + 1 && a.value.state != Sent)
            || (a.Some? && a2.Some? && a2.value.state == a.value.state && a2.value.leases == a.value.leases)
    ensures Next(p, s, e).records == s.records
  {
  }

  lemma RecordKept(p: Policy, s: State, e: Step)
    requires Inv(p, s)
    ensures RecordInv(Next(p, s, e))
  {
    var s2 := Next(p, s, e);
    if e.FinishStep? && Recorded(p, s, e.id, e.setFailure, e.applied) {
      FinishKeepsRecords(p, s, e.id, e.setFailure, e.applied);
    } else {
      NextLater(p, s, e);
      AttemptMoves(p, s, e);
      forall k | 0 <= k < |s2.records| ensures GoodRecord(s2, s2.records[k]) {
        GoodRecordLater(s, s2, s.records[k]);
      }
    }
  }

  lemma NextInv(p: Policy, s: State, e: Step)
    requires Inv(p, s)
    ensures Inv(p, Next(p, s, e))
  {
    LogKept(p, s, e);
    ConfirmKept(p, s, e);
    AttemptKept(p, s, e);
    RequestKept(p, s, e);
    DocKept(p, s, e);
    LeaseKept(p, s, e);
    RecordKept(p, s, e);
    MarkKept(p, s, e);
    WorkersKept(p, s, e);
  }
}
