/** Under a strict replay policy a bill shown as retryable has no document of its own and no POST on its way. */
module Retry {
  import opened Wrappers
  import opened Bills
  import opened Attempts
  import opened Client
  import opened Sender
  import opened Protocol
  import opened Safety
  import opened StaffSummary
  import opened Guarantees

  predicate NoOwn(s: State) {
    forall d :: d in s.docs ==> !s.docs[d].own
  }

  /** Undetermined attempts are not replayed and no POST follows an unanswered one. */
  predicate Strict(p: Policy) {
    !p.replaySending && !p.replayUnknown && (SaleOrder in p.routes ==> !p.resend)
  }

  predicate CanRetry(t: Tables) {
    BuildSummary(CardOf(t), t.attempt, 0).canRetry
  }

  ghost predicate RetrySound(p: Policy) {
    forall s :: Reachable(p, s) && CanRetry(s.t) ==> NoOwn(s)
  }

  // ----- under a strict policy -----

  predicate AnsweredExcept(s: State, pending: Option<nat>) {
    forall r :: 0 <= r < |s.requests| && Some(r) != pending ==> s.requests[r].answer.Some?
  }

  predicate Unspoiled(tries: seq<Try>) {
    forall i :: 0 <= i < |tries| - 1 ==> tries[i].Read? && !Ends(tries[i])
  }

  predicate Rejected(s: State, r: nat) {
    r < |s.requests| && s.requests[r].answer.Some? && Rejects(s.requests[r].answer.value)
  }

  /** An executing worker is the holder; while it is being answered nothing else is under way. */
  predicate StrictWorker(p: Policy, s: State, id: nat, w: Worker) {
    w.Executing? ==>
      && Holds(s.t, id) && w.attempt.route in p.routes && Unspoiled(w.tries)
      && (w.pending.Some? ==> !Over(w.attempt.route, p.resend, w.tries) && w.pending.value < |s.requests|)
      && (w.tries == [] || !w.tries[|w.tries| - 1].NoAnswer? ==>
            && AnsweredExcept(s, w.pending)
            && (w.pending.None? && w.tries != [] && Definite(w.tries[|w.tries| - 1]) ==> NoOwn(s))
            && (w.pending.Some? && Rejected(s, w.pending.value) ==> NoOwn(s)))
  }

  predicate StrictInv(p: Policy, s: State) {
    && (s.t.attempt.None? ==> NoOwn(s) && s.requests == [])
    && (s.t.attempt.Some? && s.t.attempt.value.state.FailedExactRetry? ==> NoOwn(s) && AnsweredExcept(s, None))
    && (forall id :: id in s.workers ==> StrictWorker(p, s, id, s.workers[id]))
  }

  /** Only Post and Process touch requests; only Process makes documents of the bill's own. */
  lemma Quiet(p: Policy, s: State, e: Step)
    requires !e.Post? && !e.Process?
    ensures Next(p, s, e).requests == s.requests
    ensures NoOwn(s) ==> NoOwn(Next(p, s, e))
  {
  }

  lemma SettledProcess(s: State, r: nat, a: Answer, creates: bool)
    requires AnsweredExcept(s, None)
    ensures ProcessAt(s, r, a, creates) == s
  {
  }

  lemma StrictFinish(p: Policy, s: State, e: Step)
    requires Strict(p) && StrictInv(p, s) && e.FinishStep? && Recorded(p, s, e.id, e.setFailure, e.applied)
    requires Next(p, s, e).t.attempt.value.state.FailedExactRetry?
    ensures NoOwn(s) && AnsweredExcept(s, None)
  {
    var w := s.workers[e.id];
    assert StrictWorker(p, s, e.id, w);
    FailedWithoutResend(w.attempt.docNo, w.attempt.profile, w.tries, e.setFailure);
  }

  predicate MarksInv(s: State) {
    && (s.t.attempt.None? ==> NoOwn(s) && s.requests == [])
    && (s.t.attempt.Some? && s.t.attempt.value.state.FailedExactRetry? ==> NoOwn(s) && AnsweredExcept(s, None))
  }

  lemma PostNeedsLease(p: Policy, s: State, id: nat)
    requires StrictInv(p, s) && PostBy(p, s, id) != s
    ensures Holds(s.t, id) && PostBy(p, s, id).t == s.t
  {
    assert StrictWorker(p, s, id, s.workers[id]);
  }

  lemma StrictMarks(p: Policy, s: State, e: Step)
    requires Strict(p) && StrictInv(p, s)
    ensures MarksInv(Next(p, s, e))
  {
    var s2 := Next(p, s, e);
    if e.Post? {
      if s2 != s { PostNeedsLease(p, s, e.id); }
    } else if e.Process? {
      if s2.t.attempt.None? || s2.t.attempt.value.state.FailedExactRetry? {
        SettledProcess(s, e.request, e.answer, e.creates);
      }
    } else {
      Quiet(p, s, e);
      if e.FinishStep? && Recorded(p, s, e.id, e.setFailure, e.applied) {
        if s2.t.attempt.value.state.FailedExactRetry? { StrictFinish(p, s, e); }
      } else {
        AttemptMoves(p, s, e);
      }
    }
  }

  // workers

  /** A worker that is executing keeps the lease: nobody else can claim, create or finish meanwhile. */
  lemma HolderKeepsLease(p: Policy, s: State, e: Step, id: nat)
    requires Strict(p) && Holds(s.t, id) && Actor(s, e) != Some(id)
    requires e.FinishStep? ==> !Holds(s.t, e.id)
    ensures Holds(Next(p, s, e).t, id)
  {
  }

  lemma OneExecutor(p: Policy, s: State, a: nat, b: nat)
    requires StrictInv(p, s) && a in s.workers && b in s.workers
    requires s.workers[a].Executing? && s.workers[b].Executing?
    ensures a == b
  {
    assert StrictWorker(p, s, a, s.workers[a]) && StrictWorker(p, s, b, s.workers[b]);
  }

  /** The other workers' steps leave an executing worker's part alone. */
  lemma BystanderKept(p: Policy, s: State, e: Step, id: nat)
    requires Strict(p) && StrictInv(p, s) && id in s.workers && s.workers[id].Executing?
    requires Actor(s, e) != Some(id) && !e.Process?
    ensures StrictWorker(p, Next(p, s, e), id, s.workers[id])
  {
    assert StrictWorker(p, s, id, s.workers[id]);
    HolderKeepsLease(p, s, e, id);
    if e.Post? {
      if Next(p, s, e) != s { OneExecutor(p, s, e.id, id); }
    } else {
      Quiet(p, s, e);
    }
  }

  /** An answer reaches the one POST under way; a rejection finds no document of the bill's own. */
  lemma ProcessKept(p: Policy, s: State, r: nat, a: Answer, creates: bool, id: nat)
    requires Inv(p, s) && StrictInv(p, s) && id in s.workers && s.workers[id].Executing?
    ensures StrictWorker(p, ProcessAt(s, r, a, creates), id, s.workers[id])
  {
    assert StrictWorker(p, s, id, s.workers[id]);
    assert WorkerInv(p, s, id, s.workers[id]);
  }

  lemma ReceiveStrict(p: Policy, s: State, id: nat, whole: bool, parsed: bool)
    requires Strict(p) && id in s.workers && StrictWorker(p, s, id, s.workers[id])
    ensures StrictWorker(p, ReceiveBy(s, id, whole, parsed), id, ReceiveBy(s, id, whole, parsed).workers[id])
  {
    var w, s2 := s.workers[id], ReceiveBy(s, id, whole, parsed);
    if s2 != s {
      var tries := s2.workers[id].tries;
      assert tries[..|w.tries|] == w.tries;
      forall i | 0 <= i < |tries| - 1 ensures tries[i].Read? && !Ends(tries[i]) {
        assert tries[i] == w.tries[i];
        if i == |w.tries| - 1 { assert !Over(w.attempt.route, p.resend, w.tries); }
      }
    }
  }

  lemma PostStrict(p: Policy, s: State, id: nat)
    requires Strict(p) && id in s.workers && StrictWorker(p, s, id, s.workers[id])
    ensures StrictWorker(p, PostBy(p, s, id), id, PostBy(p, s, id).workers[id])
  {
  }

  lemma CreateStrict(p: Policy, s: State, id: nat, upToDate: bool)
    requires Strict(p) && Inv(p, s) && MarksInv(s) && id in s.workers && StrictWorker(p, s, id, s.workers[id])
    ensures StrictWorker(p, CreateBy(s, id, upToDate), id, CreateBy(s, id, upToDate).workers[id])
  {
    assert WorkerInv(p, s, id, s.workers[id]);
  }

  lemma ClaimStrict(p: Policy, s: State, id: nat)
    requires Strict(p) && AttemptInv(p, s) && MarksInv(s) && id in s.workers && StrictWorker(p, s, id, s.workers[id])
    ensures StrictWorker(p, ClaimBy(p, s, id), id, ClaimBy(p, s, id).workers[id])
  {
  }

  lemma GiveUpStrict(p: Policy, s: State, e: Step, id: nat)
    requires Strict(p) && id in s.workers && (e == GiveUp(id) || (e.Heartbeat? && e.id == id))
    requires StrictWorker(p, s, id, s.workers[id])
    ensures StrictWorker(p, Next(p, s, e), id, Next(p, s, e).workers[id])
  {
    var w, s2 := s.workers[id], Next(p, s, e);
    if e.GiveUp? && s2 != s {
      var tries := s2.workers[id].tries;
      forall i | 0 <= i < |tries| - 1 ensures tries[i].Read? && !Ends(tries[i]) {
        assert tries[i] == w.tries[i];
        if i == |w.tries| - 1 { assert !Over(w.attempt.route, p.resend, w.tries); }
      }
    }
  }

  /** Steps that leave their worker reading, marking, prepared or gone. */
  lemma OutOfExecution(p: Policy, s: State, e: Step, id: nat)
    requires Actor(s, e) == Some(id) && id in Next(p, s, e).workers && Next(p, s, e).workers[id].Executing?
    requires e.Begin? || e.ReadItems? || e.Check? || e.WriteReview? || e.Crash? || e.FinishStep?
    ensures Next(p, s, e) == s
  {
  }

  lemma ActorStrict(p: Policy, s: State, e: Step, id: nat)
    requires Strict(p) && Inv(p, s) && StrictInv(p, s)
    requires Actor(s, e) == Some(id) && id in Next(p, s, e).workers
    ensures StrictWorker(p, Next(p, s, e), id, Next(p, s, e).workers[id])
  {
    if id in s.workers { assert StrictWorker(p, s, id, s.workers[id]); }
    if e.Receive? {
      ReceiveStrict(p, s, id, e.whole, e.parsed);
    } else if e.Post? {
      PostStrict(p, s, id);
    } else if e.CreateStep? {
      CreateStrict(p, s, id, e.dependenciesFresh);
    } else if e.ClaimStep? {
      ClaimStrict(p, s, id);
    } else if e.GiveUp? || e.Heartbeat? {
      GiveUpStrict(p, s, e, id);
    } else if Next(p, s, e).workers[id].Executing? {
      OutOfExecution(p, s, e, id);
    }
  }

  lemma StrictKept(p: Policy, s: State, e: Step)
    requires Strict(p) && Inv(p, s) && StrictInv(p, s)
    ensures StrictInv(p, Next(p, s, e))
  {
    var s2 := Next(p, s, e);
    StrictMarks(p, s, e);
    forall id | id in s2.workers ensures StrictWorker(p, s2, id, s2.workers[id]) {
      if Actor(s, e) == Some(id) {
        ActorStrict(p, s, e, id);
      } else {
        OtherWorkersStay(p, s, e, id);
        if s2.workers[id].Executing? {
          if e.Process? {
            ProcessKept(p, s, e.request, e.answer, e.creates, id);
          } else {
            BystanderKept(p, s, e, id);
          }
        }
      }
    }
  }

  lemma {:induction false} RunStrict(p: Policy, s: State, steps: seq<Step>)
    requires Strict(p) && Inv(p, s) && StrictInv(p, s)
    ensures StrictInv(p, Run(p, s, steps))
    decreases |steps|
  {
    if steps != [] {
      NextInv(p, s, steps[0]);
      StrictKept(p, s, steps[0]);
      RunStrict(p, Next(p, s, steps[0]), steps[1..]);
    }
  }

  lemma StrictIsSound(p: Policy, s: State)
    requires Strict(p) && Reachable(p, s) && CanRetry(s.t)
    ensures NoOwn(s) && AnsweredExcept(s, None)
  {
    var items, status, docNo, docs, steps :|
      Fresh(status, docs) && s == Run(p, Start(items, status, docNo, docs), steps);
    StartInv(p, items, status, docNo, docs);
    RunStrict(p, Start(items, status, docNo, docs), steps);
  }
}
