/** Runs that break every replay policy that is not strict, and the exact condition under which a retry offer is sound. */
module MisleadingRuns {
  import opened Wrappers
  import opened Bills
  import opened Attempts
  import opened Client
  import opened Sender
  import opened Protocol
  import opened Safety
  import opened StaffSummary
  import opened Guarantees
  import opened Retry

  const REJECTION := Answer(400, false, false, "", NoCore, false)
  const ACCEPTANCE := Answer(200, true, false, "", Created, true)

  lemma ReachStart(p: Policy, items: seq<BillItem>)
    ensures Reachable(p, Start(items, Pending, None, map[]))
  {
    assert Fresh(Pending, map[]);
    assert Start(items, Pending, None, map[]) == Run(p, Start(items, Pending, None, map[]), []);
  }

  lemma ReachNext(p: Policy, s: State, e: Step)
    requires Reachable(p, s)
    ensures Reachable(p, Next(p, s, e))
  {
    var items, status, docNo, docs, steps :|
      Fresh(status, docs) && s == Run(p, Start(items, status, docNo, docs), steps);
    RunAppend(p, Start(items, status, docNo, docs), steps, [e]);
    assert Run(p, s, [e]) == Next(p, s, e) by { assert [e][1..] == []; }
  }

  /** A set of states that every step stays in; the runs below are built inside one. */
  ghost predicate Closed(p: Policy, R: State -> bool) {
    forall s, e :: R(s) ==> R(Next(p, s, e))
  }

  lemma ReachEdit(p: Policy, R: State -> bool, s: State, e: Step)
    requires Closed(p, R) && R(s) && Edits(e)
    ensures R(Operate(s, e))
  {
    assert R(Next(p, s, e));
  }

  lemma ReachAct(p: Policy, R: State -> bool, s: State, e: Step)
    requires Closed(p, R) && R(s) && !Edits(e)
    ensures R(Act(p, s, e))
  {
    assert R(Next(p, s, e));
  }

  lemma Confirms(p: Policy, R: State -> bool, s: State) returns (s2: State)
    requires Closed(p, R) && R(s) && Editable(s.t) && |s.log| > 0
    ensures R(s2)
    ensures s2 == Edited(s, ConfirmReview(s.t, AmountFingerprint(s.log[0].items))).(confirmed := s.confirmed + [0])
  {
    ReachEdit(p, R, s, Confirm(0));
    s2 := Operate(s, Confirm(0));
  }

  /** A worker reads the bill, with no step of others in between. */
  lemma Reads(p: Policy, R: State -> bool, s: State) returns (s2: State)
    requires Closed(p, R) && R(s)
    ensures R(s2)
    ensures s2 == Put(s, s.next, Loaded(View(s.t.row, s.t.attempt.Some?, s.t.items), s.t.row.revision)).(next := s.next + 1)
  {
    ReachAct(p, R, s, Begin);
    var s1 := Act(p, s, Begin);
    ReachAct(p, R, s1, ReadItems(s.next));
    s2 := Act(p, s1, ReadItems(s.next));
  }

  lemma Checks(p: Policy, R: State -> bool, s: State, id: nat, o: Options) returns (s2: State)
    requires Closed(p, R) && R(s)
    ensures R(s2) && s2 == CheckStep(p, s, id, o)
  {
    ReachAct(p, R, s, Check(id, o));
    s2 := Act(p, s, Check(id, o));
  }

  lemma Claims(p: Policy, R: State -> bool, s: State, id: nat) returns (s2: State)
    requires Closed(p, R) && R(s)
    ensures R(s2) && s2 == ClaimBy(p, s, id)
  {
    ReachAct(p, R, s, ClaimStep(id));
    s2 := Act(p, s, ClaimStep(id));
  }

  lemma Posts(p: Policy, R: State -> bool, s: State, id: nat) returns (s2: State)
    requires Closed(p, R) && R(s)
    ensures R(s2) && s2 == PostBy(p, s, id)
  {
    ReachAct(p, R, s, Post(id));
    s2 := Act(p, s, Post(id));
  }

  lemma Processes(p: Policy, R: State -> bool, s: State, r: nat, a: Answer, creates: bool) returns (s2: State)
    requires Closed(p, R) && R(s)
    ensures R(s2) && s2 == ProcessAt(s, r, a, creates)
  {
    ReachAct(p, R, s, Process(r, a, creates));
    s2 := Act(p, s, Process(r, a, creates));
  }

  lemma Dies(p: Policy, R: State -> bool, s: State, id: nat, after: nat) returns (s2: State)
    requires Closed(p, R) && R(s) && id in s.workers
    ensures R(s2) && s2 == Put(s, id, Gone).(now := s.now + after)
  {
    ReachAct(p, R, s, Crash(id));
    var s1 := Act(p, s, Crash(id));
    ReachEdit(p, R, s1, Tick(after));
    s2 := Operate(s1, Tick(after));
  }

  /** Items and options that pass every check of the sender. */
  predicate CanGo(p: Policy, items: seq<BillItem>, o: Options) {
    && o.route in p.routes && o.mode == p.mode && o.docNo != "" && o.requestOk && o.dialogOk && !o.setIssue
    && AllSane(items) && AllMapped(items, o.catalog) && AllReady(items, o.mode) && OneGeneration(items)
  }

  /** Worker 0 has just created the attempt of a confirmed bill; nothing was posted. */
  ghost predicate Launched(p: Policy, R: State -> bool, s: State, o: Options) {
    && R(s) && s.t.attempt.Some? && !s.t.row.archived && s.t.row.status == Pending
    && s.t.attempt.value.state.Sending? && s.t.attempt.value.owner == Some(0)
    && s.t.attempt.value.leaseUntil == Some(LEASE_SECONDS) && s.t.attempt.value.route == o.route
    && s.t.attempt.value.core == NoCore
    && s.workers == map[0 := Executing(s.t.attempt.value, [], None, false)]
    && s.requests == [] && s.docs == map[] && s.next == 1 && s.now == 0
  }

  lemma CheckGoes(p: Policy, R: State -> bool, s: State, id: nat, o: Options) returns (s2: State, draft: Draft)
    requires Closed(p, R) && R(s) && WorkerIs(s, id).Loaded? && CanGo(p, s.workers[id].view.items, o)
    requires var view := s.workers[id].view;
             !view.hasAttempt && view.row.status == Pending && AmountReviewed(view.row, view.items)
    ensures R(s2) && draft.docNo == o.docNo && draft.route == o.route && draft.payload.docNo == o.docNo
    ensures s2 == Put(s, id, Prepared(draft, s.workers[id].view.row.revision, s.workers[id].at))
  {
    GoesExactly(s.workers[id].view, p.reviewRequired, o);
    draft := Prepare(s.workers[id].view, p.reviewRequired, o).draft;
    s2 := Checks(p, R, s, id, o);
  }

  lemma CreateGoes(p: Policy, R: State -> bool, s: State, id: nat) returns (s2: State)
    requires Closed(p, R) && R(s) && WorkerIs(s, id).Prepared? && s.workers[id].draft.docNo != ""
    requires s.workers[id].revision == s.t.row.revision && s.t.row.status == Pending && !s.t.row.archived && s.t.attempt.None?
    ensures R(s2)
    ensures var d := s.workers[id].draft;
            var a := Attempt(d.docNo, d.route, d.payload, d.profile, Sending, Some(id), Some(s.now + LEASE_SECONDS),
                             NoCore, s.t.row.revision, 1);
            s2 == Put(s.(t := s.t.(attempt := Some(a), row := s.t.row.(docNo := Some(d.docNo)))), id, Executing(a, [], None, false))
  {
    ReachAct(p, R, s, CreateStep(id, true));
    s2 := Act(p, s, CreateStep(id, true));
  }

  /** A confirmed bill with one worker, or two, that have loaded it. */
  lemma Loads(p: Policy, R: State -> bool, items: seq<BillItem>, two: bool) returns (s: State, view: View)
    requires Closed(p, R) && R(Start(items, Pending, None, map[]))
    ensures R(s) && s.t.attempt.None? && s.t.row == view.row && s.t.items == items == view.items
    ensures view.row.status == Pending && !view.row.archived && AmountReviewed(view.row, items) && !view.hasAttempt
    ensures view.row.revision == 1
    ensures s.workers == if two then map[0 := Loaded(view, 1), 1 := Loaded(view, 1)] else map[0 := Loaded(view, 1)]
    ensures s.requests == [] && s.docs == map[] && s.next == (if two then 2 else 1) && s.now == 0
  {
    s := Start(items, Pending, None, map[]);
    s := Confirms(p, R, s);
    view := View(s.t.row, false, items);
    s := Reads(p, R, s);
    if two { s := Reads(p, R, s); }
  }

  lemma Launch(p: Policy, R: State -> bool, items: seq<BillItem>, o: Options) returns (s: State)
    requires Closed(p, R) && R(Start(items, Pending, None, map[]))
    requires CanGo(p, items, o)
    ensures Launched(p, R, s, o)
  {
    var view, draft;
    s, view := Loads(p, R, items, false);
    s, draft := CheckGoes(p, R, s, 0, o);
    s := CreateGoes(p, R, s, 0);
  }

  /** One whole exchange of a worker whose tries may go on: POST, answer, receipt. */
  lemma Exchange(p: Policy, R: State -> bool, s: State, w: nat, a: Answer, creates: bool) returns (s2: State)
    requires Closed(p, R) && R(s) && WorkerIs(s, w).Executing? && s.workers[w].pending.None?
    requires !Over(s.workers[w].attempt.route, p.resend, s.workers[w].tries)
    requires ErpAllows(s.docs, s.workers[w].attempt.payload, a, creates)
    ensures R(s2) && s2.t == s.t && s2.next == s.next
    ensures s2.requests == s.requests + [Request(s.workers[w].attempt.payload, Some(a))]
    ensures s2.docs == if creates
                       then s.docs[s.workers[w].attempt.payload.docNo := Doc(s.workers[w].attempt.payload, true)] else s.docs
    ensures s2.workers == s.workers[w := s.workers[w].(tries := s.workers[w].tries + [Read(a)])]
  {
    var s1 := Posts(p, R, s, w);
    s2 := Processes(p, R, s1, |s.requests|, a, creates);
    Answered(p, s, w, a, creates);
    ReachAct(p, R, s2, Receive(w, true, true));
    s2 := Act(p, s2, Receive(w, true, true));
  }

  lemma Answered(p: Policy, s: State, w: nat, a: Answer, creates: bool)
    requires WorkerIs(s, w).Executing? && s.workers[w].pending.None?
    requires !Over(s.workers[w].attempt.route, p.resend, s.workers[w].tries)
    requires ErpAllows(s.docs, s.workers[w].attempt.payload, a, creates)
    ensures var worker := s.workers[w];
            ProcessAt(PostBy(p, s, w), |s.requests|, a, creates) ==
            Put(s.(requests := s.requests + [Request(worker.attempt.payload, Some(a))],
                   docs := if creates then s.docs[worker.attempt.payload.docNo := Doc(worker.attempt.payload, true)] else s.docs),
                w, worker.(pending := Some(|s.requests|)))
  {
    var payload := s.workers[w].attempt.payload;
    assert PostBy(p, s, w).requests == s.requests + [Request(payload, None)];
    assert (s.requests + [Request(payload, None)])[|s.requests| := Request(payload, Some(a))] == s.requests + [Request(payload, Some(a))];
  }

  /** A POST that its worker gives up on. */
  lemma Silence(p: Policy, R: State -> bool, s: State, w: nat) returns (s2: State)
    requires Closed(p, R) && R(s) && WorkerIs(s, w).Executing? && s.workers[w].pending.None?
    requires !Over(s.workers[w].attempt.route, p.resend, s.workers[w].tries)
    ensures R(s2)
    ensures s2 == Put(s.(requests := s.requests + [Request(s.workers[w].attempt.payload, None)]), w,
                      s.workers[w].(tries := s.workers[w].tries + [NoAnswer]))
  {
    s2 := Posts(p, R, s, w);
    ReachAct(p, R, s2, GiveUp(w));
    s2 := Act(p, s2, GiveUp(w));
  }

  lemma SilenceDecision(route: Route, resend: bool, w: Worker)
    requires w.Executing? && w.tries == [NoAnswer] && (route.SaleOrder? ==> !resend)
    ensures DecisionOf(w, false) == Some(Completion(Unknown, Failed, None))
    ensures Over(route, resend, w.tries)
  {
    assert [NoAnswer][..0] == [];
  }

  lemma AcceptanceDecision(route: Route, a: Attempt)
    ensures Decide(a.docNo, a.profile, ResultOf([Read(ACCEPTANCE)]), false)
            == Some(Completion(Sent, BillSent, if a.profile.Versioned? then Some(Created) else None))
    ensures forall resend :: Over(route, resend, [Read(ACCEPTANCE)])
  {
  }

  lemma Files(p: Policy, R: State -> bool, s: State, w: nat, c: Completion) returns (s2: State)
    requires Closed(p, R) && R(s) && Recorded(p, s, w, false, true) && DecisionOf(s.workers[w], false) == Some(c)
    ensures R(s2)
    ensures s2 == Put(s.(t := Finish(s.t, w, c), records := s2.records), w, Gone)
  {
    ReachAct(p, R, s, FinishStep(w, false, true));
    s2 := Act(p, s, FinishStep(w, false, true));
  }

  /** Worker `w` holds the lease with a POST to make while an earlier POST is still on its way. */
  ghost predicate LatePost(p: Policy, R: State -> bool, s: State, w: nat) {
    && R(s) && Holds(s.t, w) && WorkerIs(s, w).Executing?
    && s.workers[w].pending.None? && !s.workers[w].lost && s.workers[w].attempt.payload == s.t.attempt.value.payload
    && !Over(s.workers[w].attempt.route, p.resend, s.workers[w].tries)
    && |s.requests| > 0 && s.requests[0] == Request(s.t.attempt.value.payload, None) && s.docs == map[]
    && s.t.attempt.value.core == NoCore && s.t.row.status != BillSent
  }

  /** The second POST is rejected and filed as a definite failure; then the first one arrives. */
  lemma LateArrival(p: Policy, R: State -> bool, s: State, w: nat) returns (end: State)
    requires Closed(p, R) && LatePost(p, R, s, w)
    ensures R(end) && CanRetry(end.t) && !NoOwn(end)
  {
    var payload, tries := s.workers[w].attempt.payload, s.workers[w].tries + [Read(REJECTION)];
    var s1 := Exchange(p, R, s, w, REJECTION, false);
    assert tries[|tries| - 1] == Read(REJECTION);
    assert LastAnswer(tries) == Some(REJECTION);
    assert Recorded(p, s1, w, false, true) && DecisionOf(s1.workers[w], false) == Some(Completion(FailedExactRetry, Failed, None));
    var s2 := Files(p, R, s1, w, Completion(FailedExactRetry, Failed, None));
    assert s2.requests[0] == s.requests[0];
    end := Processes(p, R, s2, 0, ACCEPTANCE, true);
    assert end.docs[payload.docNo].own;
  }

  /** The first worker dies after its POST; the expired `sending` attempt is replayed. */
  lemma ReplayedSending(p: Policy, R: State -> bool, s: State, o: Options) returns (end: State)
    requires Closed(p, R) && p.replaySending && Launched(p, R, s, o) && o.route in p.routes && o.requestOk && o.mode == p.mode
    ensures R(end) && LatePost(p, R, end, 1)
  {
    var s1 := Posts(p, R, s, 0);
    var s2 := Dies(p, R, s1, 0, LEASE_SECONDS);
    end := Replayed(p, R, s2, o);
  }

  /** A second worker loads the bill and claims its attempt. */
  lemma Replayed(p: Policy, R: State -> bool, s: State, o: Options) returns (end: State)
    requires Closed(p, R) && R(s) && s.next == 1 && s.t.attempt.Some? && Sendable(s.t.row.status)
    requires o.route in p.routes && o.requestOk && o.mode == p.mode
    requires ClaimOutcomeOf(s.t, Claimable(p), 1, s.now) == Claimed
    requires |s.requests| > 0 && s.requests[0] == Request(s.t.attempt.value.payload, None) && s.docs == map[] && s.t.attempt.value.core == NoCore
    ensures LatePost(p, R, end, 1)
  {
    var s1 := Reads(p, R, s);
    var s2 := Checks(p, R, s1, 1, o);
    assert s2 == Put(s1, 1, Replaying);
    end := Claims(p, R, s2, 1);
  }

  /** The first worker gives up on its POST; the attempt is filed as `unknown` and replayed. */
  lemma ReplayedUnknown(p: Policy, R: State -> bool, s: State, o: Options) returns (end: State)
    requires Closed(p, R) && p.replayUnknown && (o.route.SaleOrder? ==> !p.resend)
    requires Launched(p, R, s, o) && o.route in p.routes && o.requestOk && o.mode == p.mode
    ensures LatePost(p, R, end, 1)
  {
    var s2 := GivesUp(p, R, s, o);
    end := Replayed(p, R, s2, o);
  }

  lemma GivesUp(p: Policy, R: State -> bool, s: State, o: Options) returns (s2: State)
    requires Closed(p, R) && Launched(p, R, s, o) && (o.route.SaleOrder? ==> !p.resend)
    ensures R(s2) && s2.t == Finish(s.t, 0, Completion(Unknown, Failed, None)) && s2.docs == map[] && s2.next == 1
    ensures s2.requests == [Request(s.t.attempt.value.payload, None)]
  {
    var s1 := Silence(p, R, s, 0);
    var w := s1.workers[0];
    assert w == Executing(s.t.attempt.value, [NoAnswer], None, false);
    SilenceDecision(o.route, p.resend, w);
    assert WorkerIs(s1, 0) == w && Over(w.attempt.route, p.resend, w.tries) && Holds(s1.t, 0);
    assert Recorded(p, s1, 0, false, true);
    s2 := Files(p, R, s1, 0, Completion(Unknown, Failed, None));
  }

  /** The sale-order client posts again after an unanswered POST. */
  lemma Resent(p: Policy, R: State -> bool, s: State, o: Options) returns (end: State)
    requires Closed(p, R) && p.resend && o.route.SaleOrder? && Launched(p, R, s, o)
    ensures LatePost(p, R, end, 0)
  {
    end := Silence(p, R, s, 0);
  }

  lemma MisleadingIn(p: Policy, R: State -> bool, items: seq<BillItem>, o: Options) returns (end: State)
    requires Closed(p, R) && R(Start(items, Pending, None, map[])) && CanGo(p, items, o)
    requires p.replaySending || p.replayUnknown || (o.route.SaleOrder? && p.resend)
    ensures R(end) && CanRetry(end.t) && !NoOwn(end)
  {
    var s := Launch(p, R, items, o);
    if o.route.SaleOrder? && p.resend {
      var late := Resent(p, R, s, o);
      end := LateArrival(p, R, late, 0);
    } else if p.replaySending {
      var late := ReplayedSending(p, R, s, o);
      end := LateArrival(p, R, late, 1);
    } else {
      var late := ReplayedUnknown(p, R, s, o);
      end := LateArrival(p, R, late, 1);
    }
  }

  lemma ReachableClosed(p: Policy, items: seq<BillItem>) returns (R: State -> bool)
    ensures Closed(p, R) && R(Start(items, Pending, None, map[]))
    ensures forall s :: R(s) ==> Reachable(p, s)
  {
    R := s => Reachable(p, s);
    forall s, e | R(s) ensures R(Next(p, s, e)) { ReachNext(p, s, e); }
    ReachStart(p, items);
  }

  /** Every bill that can be sent at all has, under a policy that is not strict on its route, a run that misleads staff. */
  lemma Misleading(p: Policy, items: seq<BillItem>, o: Options) returns (end: State)
    requires CanGo(p, items, o)
    requires p.replaySending || p.replayUnknown || (o.route.SaleOrder? && p.resend)
    ensures Reachable(p, end) && CanRetry(end.t) && !NoOwn(end)
  {
    var R := ReachableClosed(p, items);
    end := MisleadingIn(p, R, items, o);
  }

  /** A retry offer is safe in every run exactly when the policy is strict (or the bill has no route to go by). */
  lemma RetrySoundExactly(p: Policy)
    ensures RetrySound(p) <==> p.routes == {} || Strict(p)
  {
    if p.routes != {} && !Strict(p) {
      var route := if SaleOrder in p.routes then SaleOrder else SaleInvoice;
      assert route in p.routes by {
        var r :| r in p.routes;
        assert r.SaleOrder? || r.SaleInvoice?;
      }
      var end := Misleading(p, [], Options(true, route, "D", 0, NoProfile, p.mode, map[], false, true));
    }
    if p.routes == {} {
      forall s | Reachable(p, s) && CanRetry(s.t) ensures NoOwn(s) {
        ReachableInv(p, s);
      }
    } else if Strict(p) {
      forall s | Reachable(p, s) && CanRetry(s.t) ensures NoOwn(s) {
        StrictIsSound(p, s);
      }
    }
  }

  /** In particular the policy of the code is not sound. */
  lemma CodeMisleads(p: Policy)
    requires CodePolicy(p)
    ensures !RetrySound(p)
  {
    RetrySoundExactly(p);
  }

  // ----- the unguarded review write -----

  /** A worker that has just created the attempt gets the document accepted and records it. */
  lemma SendsAtOnce(p: Policy, R: State -> bool, s: State, w: nat) returns (s2: State)
    requires Closed(p, R) && R(s) && Holds(s.t, w) && s.docs == map[]
    requires WorkerIs(s, w) == Executing(s.t.attempt.value, [], None, false)
    ensures R(s2) && s2.t.attempt.Some? && s2.t.attempt.value.state.Sent?
    ensures s2.workers == s.workers[w := Gone]
  {
    s2 := Exchange(p, R, s, w, ACCEPTANCE, true);
    assert s2.workers[w].tries == [Read(ACCEPTANCE)];
    AcceptanceDecision(s.t.attempt.value.route, s.t.attempt.value);
    assert Recorded(p, s2, w, false, true);
    var core := if s.t.attempt.value.profile.Versioned? then Some(Created) else None;
    s2 := Files(p, R, s2, w, Completion(Sent, BillSent, core));
  }

  lemma NumberLostIn(p: Policy, R: State -> bool, items: seq<BillItem>, o: Options) returns (s: State)
    requires Closed(p, R) && R(Start(items, Pending, None, map[])) && CanGo(p, items, o)
    ensures R(s) && s.t.attempt.Some? && s.t.attempt.value.state.Sent?
    ensures s.t.row.docNo == None && s.t.row.status == NeedsReview
  {
    var view, draft;
    s, view := Loads(p, R, items, true);
    s := Checks(p, R, s, 1, o.(setIssue := true));
    assert WorkerIs(s, 1) == Marking;
    s, draft := CheckGoes(p, R, s, 0, o);
    s := CreateGoes(p, R, s, 0);
    s := SendsAtOnce(p, R, s, 0);
    assert WorkerIs(s, 1) == Marking;
    ReachAct(p, R, s, WriteReview(1));
    s := Act(p, s, WriteReview(1));
  }

  /** A sender that refused its own stale copy of the bill blanks the number of a document that another one sent. */
  lemma NumberLost(p: Policy, items: seq<BillItem>, o: Options) returns (s: State)
    requires CanGo(p, items, o)
    ensures Reachable(p, s) && s.t.attempt.Some? && s.t.attempt.value.state.Sent? && Present(s)
    ensures s.t.row.docNo == None && s.t.row.status == NeedsReview && !NumberAgrees(s.t)
  {
    var R := ReachableClosed(p, items);
    s := NumberLostIn(p, R, items, o);
    OutcomesFenced(p, s);
  }
}
