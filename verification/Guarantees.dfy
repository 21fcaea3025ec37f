/** The send protocol's promises, for every run of any number of senders, operators and late POSTs. */
module Guarantees {
  import opened Wrappers
  import opened Bills
  import opened Attempts
  import opened Client
  import opened Sender
  import opened Protocol
  import opened Safety
  import opened StaffSummary
  import Text

  /** A state some run of a fresh bill ends in. */
  ghost predicate Reachable(p: Policy, s: State) {
    exists items, status, docNo, docs, steps ::
      Fresh(status, docs) && s == Run(p, Start(items, status, docNo, docs), steps)
  }

  lemma {:induction false} RunInv(p: Policy, s: State, steps: seq<Step>)
    requires Inv(p, s)
    ensures Inv(p, Run(p, s, steps))
    decreases |steps|
  {
    if steps != [] {
      NextInv(p, s, steps[0]);
      RunInv(p, Next(p, s, steps[0]), steps[1..]);
    }
  }

  lemma ReachableInv(p: Policy, s: State)
    requires Reachable(p, s)
    ensures Inv(p, s)
  {
    var items, status, docNo, docs, steps :|
      Fresh(status, docs) && s == Run(p, Start(items, status, docNo, docs), steps);
    StartInv(p, items, status, docNo, docs);
    RunInv(p, Start(items, status, docNo, docs), steps);
  }

  lemma {:induction false} RunLater(p: Policy, s: State, steps: seq<Step>)
    ensures LaterTables(s, Run(p, s, steps)) && LaterErp(s, Run(p, s, steps))
    decreases |steps|
  {
    if steps != [] {
      NextLater(p, s, steps[0]);
      RunLater(p, Next(p, s, steps[0]), steps[1..]);
    }
  }

  /** All POSTs of a bill, by whichever workers, carry one payload, and at most one document comes of them. */
  lemma OneDocument(p: Policy, s: State)
    requires Reachable(p, s)
    ensures forall i, j :: 0 <= i < |s.requests| && 0 <= j < |s.requests| ==> s.requests[i].payload == s.requests[j].payload
    ensures forall i :: 0 <= i < |s.requests| ==>
              s.t.attempt.Some? && s.requests[i].payload == s.t.attempt.value.payload
              && s.requests[i].payload.docNo == s.t.attempt.value.docNo
    ensures forall d, e :: d in s.docs && e in s.docs && s.docs[d].own && s.docs[e].own ==> d == e
    ensures forall d :: d in s.docs && s.docs[d].own ==> s.t.attempt.Some? && s.docs[d].payload == s.t.attempt.value.payload
  {
    ReachableInv(p, s);
  }

  /** A started attempt never changes what it sends, whatever happens afterwards. */
  lemma PlanForever(p: Policy, s: State, steps: seq<Step>)
    requires Reachable(p, s) && s.t.attempt.Some?
    ensures Run(p, s, steps).t.attempt.Some? && SamePlan(s.t.attempt.value, Run(p, s, steps).t.attempt.value)
    ensures forall i :: 0 <= i < |Run(p, s, steps).requests| ==>
              Run(p, s, steps).requests[i].payload == s.t.attempt.value.payload
    ensures Run(p, s, steps).t.items == s.t.items && Run(p, s, steps).t.row.revision == s.t.row.revision
  {
    ReachableInv(p, s);
    RunLater(p, s, steps);
    RunInv(p, s, steps);
    var s2 := Run(p, s, steps);
    assert AttemptInv(p, s) && AttemptInv(p, s2);
    assert LogInv(s) && LogInv(s2);
    assert s2.log[s.t.row.revision] == s.log[s.t.row.revision];
  }

  // ----- fencing -----

  /** The steps that write an outcome are exactly those of the present lease holder. */
  lemma OutcomeByHolder(p: Policy, s: State, e: Step, s2: State)
    requires Reachable(p, s) && s2 == Next(p, s, e)
    ensures |s2.records| != |s.records| ==>
              e.FinishStep? && Holds(s.t, e.id) && WorkerIs(s, e.id).Executing? && !WorkerIs(s, e.id).lost
              && WorkerIs(s, e.id).attempt.leases == s.t.attempt.value.leases
              && |s2.records| == |s.records| + 1 && s2.records[|s.records|].lease == s.t.attempt.value.leases
    ensures s.t.attempt.Some? && !s.t.attempt.value.state.Sending? && s2.t.attempt.Some? && !s2.t.attempt.value.state.Sending? ==>
              s2.t.attempt.value.state == s.t.attempt.value.state && s2.records == s.records
  {
    ReachableInv(p, s);
    if e.FinishStep? && Recorded(p, s, e.id, e.setFailure, e.applied) {
      NewRecordGood(p, s, e.id, e.setFailure, e.applied);
    } else {
      AttemptMoves(p, s, e);
    }
  }

  /** Each lease records at most one outcome, and `sent` rests on an acceptance for the attempt's own number. */
  lemma OutcomesFenced(p: Policy, s: State)
    requires Reachable(p, s)
    ensures forall j, k :: 0 <= j < k < |s.records| ==> s.records[j].lease < s.records[k].lease
    ensures forall k :: 0 <= k < |s.records| && s.records[k].completion.state.Sent? ==>
              s.t.attempt.Some? && s.records[k].reply.Some? && Accepts(s.records[k].reply.value)
              && s.records[k].reply.value.docNo in {"", s.t.attempt.value.docNo}
    ensures s.t.attempt.Some? && s.t.attempt.value.state.Sent? ==>
              Present(s) && s.records != [] && s.records[|s.records| - 1].completion.state.Sent?
  {
    ReachableInv(p, s);
    forall k | 0 <= k < |s.records| && s.records[k].completion.state.Sent?
      ensures s.t.attempt.Some? && s.records[k].reply.Some? && Accepts(s.records[k].reply.value)
              && s.records[k].reply.value.docNo in {"", s.t.attempt.value.docNo}
    {
      assert GoodRecord(s, s.records[k]);
    }
    if s.t.attempt.Some? && s.t.attempt.value.state.Sent? {
      assert GoodRecord(s, s.records[|s.records| - 1]);
    }
  }

  /** `sent` is final: later steps neither leave it nor record anything more. */
  lemma {:induction false} SentForever(p: Policy, s: State, steps: seq<Step>)
    requires Inv(p, s) && s.t.attempt.Some? && s.t.attempt.value.state.Sent?
    ensures Run(p, s, steps).t.attempt.Some? && Run(p, s, steps).t.attempt.value.state.Sent?
    ensures Run(p, s, steps).records == s.records
    decreases |steps|
  {
    if steps != [] {
      NextInv(p, s, steps[0]);
      AttemptMoves(p, s, steps[0]);
      SentForever(p, Next(p, s, steps[0]), steps[1..]);
    }
  }

  // ----- frozen lines and confirmations -----

  /**
   * Once an attempt exists every POST says line by line what the bill's present items say,
   * with the quantity the conversion rule accepts.
   */
  lemma FrozenLines(p: Policy, s: State)
    requires Reachable(p, s) && s.t.attempt.Some?
    ensures s.t.attempt.value.revision == s.t.row.revision
    ensures FaithfulLines(s.t.items, p.mode, s.t.attempt.value.payload.lines)
    ensures AllReady(s.t.items, p.mode) && AllSane(s.t.items)
    ensures forall i :: 0 <= i < |s.requests| ==> FaithfulLines(s.t.items, p.mode, s.requests[i].payload.lines)
    ensures s.t.attempt.value.route.SaleOrder? || UnitsAgree(s.t.items) ==>
              UnitsKept(s.t.items, s.t.attempt.value.payload.lines)
  {
    ReachableInv(p, s);
    forall i | 0 <= i < |s.t.items| ensures QuantityReady(s.t.items[i], p.mode) {
      assert Faithful(s.t.items[i], p.mode, s.t.attempt.value.payload.lines[i]);
    }
  }

  /**
   * No stale confirmation is sent: the attempt of a review-required bill was created at a revision
   * that carries a confirmation, an operator gave it on a version loaded before, and that
   * version's amounts are those of the items sent.
   */
  lemma ConfirmedAmountsOnly(p: Policy, s: State)
    requires Reachable(p, s) && s.t.attempt.Some? && p.reviewRequired
    ensures s.t.attempt.value.revision < |s.log|
    ensures s.log[s.t.attempt.value.revision] == Version(s.t.items, Some(AmountFingerprint(s.t.items)))
    ensures exists c :: 0 <= c < |s.confirmed| && s.confirmed[c] < s.t.attempt.value.revision
                        && AmountFingerprint(s.log[s.confirmed[c]].items) == AmountFingerprint(s.t.items)
  {
    ReachableInv(p, s);
    assert LogInv(s) && AttemptInv(p, s);
    assert ConfirmedAt(s, s.t.row.revision);
  }

  // ----- the document number on the bill -----

  predicate NumberAgrees(t: Tables) {
    t.attempt.Some? ==> t.row.docNo == Some(t.attempt.value.docNo)
  }

  /** The unguarded review write: the one step that can part the bill from its attempt's number. */
  predicate Parts(s: State, e: Step) {
    e.WriteReview? && WorkerIs(s, e.id).Marking? && s.t.attempt.Some?
  }

  predicate Rejoins(p: Policy, s: State, e: Step) {
    e.FinishStep? && Recorded(p, s, e.id, e.setFailure, e.applied)
  }

  /** Whether the bill's number agrees afterwards is decided by the last parting or rejoining step. */
  lemma NumberStep(p: Policy, s: State, e: Step)
    ensures NumberAgrees(Next(p, s, e).t) <==> !Parts(s, e) && (Rejoins(p, s, e) || NumberAgrees(s.t) || s.t.attempt.None?)
  {
  }

  function StateAt(p: Policy, s: State, steps: seq<Step>, i: nat): State
    requires i <= |steps|
  {
    Run(p, s, steps[..i])
  }

  predicate PartsAt(p: Policy, s: State, steps: seq<Step>, i: nat)
    requires i < |steps|
  {
    Parts(StateAt(p, s, steps, i), steps[i])
  }

  predicate RejoinsAt(p: Policy, s: State, steps: seq<Step>, i: nat)
    requires i < |steps|
  {
    Rejoins(p, StateAt(p, s, steps, i), steps[i])
  }

  /** Every review write on the attempted bill is followed by a recorded outcome before step `n`. */
  predicate Mended(p: Policy, s: State, steps: seq<Step>, n: nat)
    requires n <= |steps|
  {
    forall i :: 0 <= i < n && PartsAt(p, s, steps, i) ==> exists j :: i < j < n && RejoinsAt(p, s, steps, j)
  }

  lemma StateNext(p: Policy, s: State, steps: seq<Step>, n: nat)
    requires n < |steps|
    ensures StateAt(p, s, steps, n + 1) == Next(p, StateAt(p, s, steps, n), steps[n])
  {
    RunAppend(p, s, steps[..n], [steps[n]]);
    assert steps[..n + 1] == steps[..n] + [steps[n]];
    assert Run(p, StateAt(p, s, steps, n), [steps[n]]) == Next(p, StateAt(p, s, steps, n), steps[n]) by { assert [steps[n]][1..] == []; }
  }

  lemma NotBoth(s: State, p: Policy, e: Step)
    ensures !(Parts(s, e) && Rejoins(p, s, e))
  {
  }

  lemma MendedNext(p: Policy, s: State, steps: seq<Step>, n: nat)
    requires n < |steps|
    ensures Mended(p, s, steps, n + 1) <==>
            !PartsAt(p, s, steps, n) && (RejoinsAt(p, s, steps, n) || Mended(p, s, steps, n))
  {
    NotBoth(StateAt(p, s, steps, n), p, steps[n]);
  }

  lemma {:induction false} NumberAgreesUpTo(p: Policy, s: State, steps: seq<Step>, n: nat)
    requires NumberAgrees(s.t) && n <= |steps|
    ensures NumberAgrees(StateAt(p, s, steps, n).t) <==> Mended(p, s, steps, n)
  {
    if n == 0 {
      assert steps[..0] == [];
    } else {
      NumberAgreesUpTo(p, s, steps, n - 1);
      StateNext(p, s, steps, n - 1);
      NumberStep(p, StateAt(p, s, steps, n - 1), steps[n - 1]);
      MendedNext(p, s, steps, n - 1);
    }
  }

  /**
   * After a run bill and attempt carry the same number if and only if every review write made on the
   * attempted bill was followed by a recorded outcome.
   */
  lemma NumberAgreesExactly(p: Policy, s: State, steps: seq<Step>)
    requires NumberAgrees(s.t)
    ensures NumberAgrees(Run(p, s, steps).t) <==>
            forall i :: 0 <= i < |steps| && PartsAt(p, s, steps, i) ==> exists j :: i < j < |steps| && RejoinsAt(p, s, steps, j)
  {
    NumberAgreesUpTo(p, s, steps, |steps|);
    assert steps[..|steps|] == steps;
  }

  // ----- the staff summary -----

  /** A bill shown as resolved or succeeded has its document, and an undetermined POST is shown as such. */
  lemma SummarySound(p: Policy, s: State, steps: seq<Step>, failures: int)
    requires Reachable(p, s)
    ensures var later := Run(p, s, steps);
            var summary := BuildSummary(CardOf(s.t), later.t.attempt, failures);
            && (summary.resolution.Resolved? || summary.resolution.Succeeded? ==> Present(later))
            && (later.t.attempt.Some? && (later.t.attempt.value.state.Sending? || later.t.attempt.value.state.Unknown?) ==>
                  summary.resolution.Undetermined? && !summary.canRetry)
            && (summary.canRetry ==> summary.resolution.Unresolved? && later.t.attempt.Some?)
  {
    var later := Run(p, s, steps);
    ReachableInv(p, s);
    RunInv(p, s, steps);
    if s.t.attempt.Some? && s.t.attempt.value.state.Sent? {
      SentForever(p, s, steps);
    }
    if later.t.attempt.Some? && later.t.attempt.value.state.Sent? {
      assert GoodRecord(later, later.records[|later.records| - 1]);
    }
  }

  /**
   * The summary in full, for every bill of every run, with the bill read before the attempt: created if and
   * only if the attempt was sent, resolved when there were failures on the way and succeeded otherwise; open
   * while a POST is undetermined; and retryable if and only if the attempt last failed for good.
   */
  lemma SummaryExactly(p: Policy, s: State, steps: seq<Step>, failures: int)
    requires Reachable(p, s)
    ensures var attempt := Run(p, s, steps).t.attempt;
            var summary := BuildSummary(CardOf(s.t), attempt, failures);
            && (s.t.row.status == BillSent || (s.t.attempt.Some? && (s.t.attempt.value.core == Created || s.t.attempt.value.core == AlreadyExists))
                ==> attempt.Some? && attempt.value.state == Sent)
            && (summary.resolution == Resolved <==> attempt.Some? && attempt.value.state == Sent && failures > 0)
            && (summary.resolution == Succeeded <==> attempt.Some? && attempt.value.state == Sent && failures <= 0)
            && (summary.resolution == Undetermined <==> attempt.Some? && (attempt.value.state == Sending || attempt.value.state == Unknown))
            && (summary.canRetry <==> s.t.attempt.Some? && attempt.Some? && attempt.value.state == FailedExactRetry)
            && summary.failures == (if failures > 0 then failures else 0)
            && (attempt.Some? ==> summary.docNo == attempt.value.docNo)
            && (attempt.None? && s.t.row.docNo.Some? ==> summary.docNo == Text.Trim(s.t.row.docNo.value))
            && (attempt.None? && s.t.row.docNo.None? ==> summary.docNo == "")
  {
    ReachableInv(p, s);
    RunLater(p, s, steps);
    RunInv(p, s, steps);
    if s.t.attempt.Some? && s.t.attempt.value.state.Sent? { SentForever(p, s, steps); }
  }

  /** What the code asks about a bill and an attempt, whatever they are: any one of four marks counts as created. */
  lemma AnyMarkCounts(card: Card, attempt: Option<Attempt>, failures: int)
    requires card.row.status == BillSent || card.core == Created || card.core == AlreadyExists || (attempt.Some? && attempt.value.state == Sent)
    ensures BuildSummary(card, attempt, failures).resolution == if failures > 0 then Resolved else Succeeded
    ensures !BuildSummary(card, attempt, failures).canRetry
  {
  }
}
