/**
 * The ERP clients' POST loop, the reading of what came back, and the execution of a
 * leased attempt up to the single write that records its outcome.
 */
module Client {
  import opened Wrappers
  import opened Attempts

  /**
   * A parsed ERP answer. `mismatch` says that its code is doc_no_payload_mismatch,
   * `profileStored` that its profile status is one of the four the database accepts.
   */
  datatype Answer = Answer(status: nat, success: bool, mismatch: bool, docNo: string, core: CoreStatus, profileStored: bool)

  /** One POST: no HTTP answer, an answer whose body could not be read through, or a complete one. */
  datatype Try = NoAnswer | Unread(answer: Answer) | Read(answer: Answer)

  datatype ClientResult = ClientResult(status: nat, response: Option<Answer>, failed: bool)

  predicate HttpSuccess(status: nat) {
    200 <= status < 300
  }

  // ----- the loop -----

  const SALE_ORDER_TRIES := 4

  function MaxTries(route: Route): (n: nat)
    ensures 1 <= n <= SALE_ORDER_TRIES
  {
    if route.SaleOrder? then SALE_ORDER_TRIES else 1
  }

  /** A complete answer ends the loop when it is a success or a client error other than 429. */
  predicate Ends(t: Try) {
    t.Read? && (t.answer.success || (400 <= t.answer.status < 500 && t.answer.status != 429))
  }

  /** No further POST follows these tries. `resend` is false for a client that never repeats an unanswered POST. */
  predicate Over(route: Route, resend: bool, tries: seq<Try>) {
    |tries| > 0 &&
    (|tries| >= MaxTries(route) || Ends(tries[|tries| - 1]) || (!resend && !tries[|tries| - 1].Read?))
  }

  /** The status and response kept are those of the last try that was answered at all. */
  function LastAnswer(tries: seq<Try>): Option<Answer> {
    if tries == [] then None
    else
      var last := tries[|tries| - 1];
      if last.NoAnswer? then LastAnswer(tries[..|tries| - 1]) else Some(last.answer)
  }

  function ResultOf(tries: seq<Try>): ClientResult {
    var answer := LastAnswer(tries);
    ClientResult(if answer.Some? then answer.value.status else 0, answer, tries == [] || !tries[|tries| - 1].Read?)
  }

  lemma {:induction false} LastAnswerFrom(tries: seq<Try>)
    ensures LastAnswer(tries).Some? ==>
              exists i :: 0 <= i < |tries| && !tries[i].NoAnswer? && tries[i].answer == LastAnswer(tries).value
                          && forall j :: i < j < |tries| ==> tries[j].NoAnswer?
    ensures LastAnswer(tries).None? ==> forall i :: 0 <= i < |tries| ==> tries[i].NoAnswer?
  {
    if tries != [] {
      var n := |tries| - 1;
      if tries[n].NoAnswer? {
        LastAnswerFrom(tries[..n]);
        if LastAnswer(tries[..n]).Some? {
          var i :| 0 <= i < n && !tries[..n][i].NoAnswer? && tries[..n][i].answer == LastAnswer(tries[..n]).value
                   && forall j :: i < j < n ==> tries[..n][j].NoAnswer?;
          assert !tries[i].NoAnswer? && tries[i].answer == LastAnswer(tries).value;
          forall j | i < j < |tries| ensures tries[j].NoAnswer? {
            if j < n { assert tries[..n][j].NoAnswer?; }
          }
        } else {
          forall i | 0 <= i < |tries| ensures tries[i].NoAnswer? {
            if i < n { assert tries[..n][i].NoAnswer?; }
          }
        }
      } else {
        assert tries[n].answer == LastAnswer(tries).value;
      }
    }
  }

  /** The tries a loop that may see `wire(0), wire(1), ...` really makes. */
  ghost predicate LoopOf(route: Route, wire: nat -> Try, tries: seq<Try>) {
    && Over(route, true, tries)
    && (forall i :: 0 <= i < |tries| ==> tries[i] == wire(i))
    && (forall i :: 0 < i < |tries| ==> !Over(route, true, tries[..i]))
  }

  lemma LoopPrefix(route: Route, wire: nat -> Try, a: seq<Try>, b: seq<Try>)
    requires LoopOf(route, wire, a) && |a| <= |b|
    requires forall i :: 0 <= i < |b| ==> b[i] == wire(i)
    ensures b[..|a|] == a
  {
  }

  lemma LoopDeterministic(route: Route, wire: nat -> Try, a: seq<Try>, b: seq<Try>)
    requires LoopOf(route, wire, a) && LoopOf(route, wire, b)
    ensures a == b
  {
    if |a| <= |b| { LoopPrefix(route, wire, a, b); } else { LoopPrefix(route, wire, b, a); }
  }

  lemma ResultSnoc(tries: seq<Try>, t: Try)
    ensures ResultOf(tries + [t]) ==
            if t.NoAnswer? then ResultOf(tries).(failed := true)
            else ClientResult(t.answer.status, Some(t.answer), t.Unread?)
  {
    assert (tries + [t])[..|tries|] == tries;
  }

  /** When the loop goes on and when it stops, in statuses: four POSTs at most, one for an invoice. */
  predicate StopsAsItShould(route: Route, tries: seq<Try>) {
    && 1 <= |tries| <= (if route.SaleOrder? then 4 else 1)
    && (forall i :: 0 <= i < |tries| - 1 ==>
          !(tries[i].Read? && (tries[i].answer.success || (400 <= tries[i].answer.status < 500 && tries[i].answer.status != 429))))
    && (|tries| < (if route.SaleOrder? then 4 else 1) ==>
          var last := tries[|tries| - 1];
          last.Read? && (last.answer.success || (400 <= last.answer.status < 500 && last.answer.status != 429)))
  }

  lemma LoopStops(route: Route, wire: nat -> Try, tries: seq<Try>)
    requires 1 <= |tries| <= MaxTries(route) && (|tries| == MaxTries(route) || Ends(tries[|tries| - 1]))
    requires forall i :: 0 <= i < |tries| ==> tries[i] == wire(i)
    requires forall i :: 0 <= i < |tries| - 1 ==> !Ends(tries[i])
    ensures LoopOf(route, wire, tries) && StopsAsItShould(route, tries)
  {
    forall i | 0 < i < |tries| ensures !Over(route, true, tries[..i]) {
      assert tries[..i][i - 1] == tries[i - 1];
    }
  }

  /** What one try makes of the result so far, and whether it is the last. */
  method Absorb(was: ClientResult, t: Try) returns (now: ClientResult, stop: bool)
    ensures now == if t.NoAnswer? then was.(failed := true) else ClientResult(t.answer.status, Some(t.answer), t.Unread?)
    ensures stop <==> Ends(t)
  {
    match t
    case NoAnswer =>
      return was.(failed := true), false;
    case Unread(a) =>
      return ClientResult(a.status, Some(a), true), false;
    case Read(a) =>
      now := ClientResult(a.status, Some(a), false);
      if a.success { return now, true; }
      return now, 400 <= a.status < 500 && a.status != 429;
  }

  /** Every POST carries the same bytes; the result is read off the tries made. */
  method PostWithBackoff(route: Route, body: Payload, wire: nat -> Try)
    returns (result: ClientResult, posts: seq<Payload>, tries: seq<Try>)
    ensures LoopOf(route, wire, tries)
    ensures |posts| == |tries| <= MaxTries(route) && forall i :: 0 <= i < |posts| ==> posts[i] == body
    ensures result == ResultOf(tries)
    ensures StopsAsItShould(route, tries)
    ensures result.failed <==> !tries[|tries| - 1].Read?
  {
    result, posts, tries := ClientResult(0, None, true), [], [];
    for attempt := 0 to MaxTries(route)
      invariant |posts| == |tries| == attempt && forall i :: 0 <= i < |posts| ==> posts[i] == body
      invariant forall i :: 0 <= i < attempt ==> tries[i] == wire(i) && !Ends(tries[i])
      invariant result == ResultOf(tries)
    {
      posts := posts + [body];
      var t := wire(attempt);
      ResultSnoc(tries, t);
      var stop;
      result, stop := Absorb(result, t);
      tries := tries + [t];
      if stop { break; }
    }
    LoopStops(route, wire, tries);
  }

  // ----- reading the result -----

  datatype FailureClass = Transient | UserAction

  predicate TransientStatus(status: nat) {
    status == 408 || status == 425 || status == 429 || status >= 500
  }

  function ClassifySendFailure(status: nat, failed: bool): FailureClass {
    if TransientStatus(status) then Transient
    else if status >= 400 then UserAction
    else if failed then Transient
    else UserAction
  }

  /** An answer that accepts the document, one that leaves its fate open, and the rest: a rejection. */
  predicate Accepts(a: Answer) {
    HttpSuccess(a.status) && a.success
  }

  predicate Uncertain(a: Answer) {
    TransientStatus(a.status)
  }

  predicate Rejects(a: Answer) {
    !Accepts(a) && !Uncertain(a)
  }

  predicate Succeeded(r: ClientResult) {
    !r.failed && HttpSuccess(r.status) && r.response.Some? && r.response.value.success
  }

  /**
   * The completion an exchange is recorded with; `setFailure` is the error text's set-product test.
   * None where the repository refuses the profile part and so records nothing at all.
   */
  function Decide(docNo: string, profile: Profile, r: ClientResult, setFailure: bool): Option<Completion> {
    if profile != NoProfile && r.response.Some? && r.response.value.mismatch then
      if profile.Versioned? then Some(Completion(Stale, NeedsReview, Some(ExistingDocumentConflict))) else None
    else if Succeeded(r) && r.response.value.docNo != "" && r.response.value.docNo != docNo then
      Some(Completion(Stale, NeedsReview, None))
    else if Succeeded(r) then
      if !profile.Versioned? then Some(Completion(Sent, BillSent, None))
      else if r.response.value.profileStored then Some(Completion(Sent, BillSent, Some(r.response.value.core)))
      else None
    else
      Some(Completion(if ClassifySendFailure(r.status, r.failed).Transient? then Unknown else FailedExactRetry,
                      if setFailure then NeedsReview else Failed, None))
  }

  predicate Records(docNo: string, profile: Profile, r: ClientResult, setFailure: bool, state: AttemptState) {
    var c := Decide(docNo, profile, r, setFailure);
    c.Some? && c.value.state == state
  }

  function FinishWith(t: Tables, owner: nat, c: Option<Completion>): Tables {
    if c.None? then t else Finish(t, owner, c.value)
  }

  /** The last POST was answered in full, with a success status and a success mark. */
  predicate AcceptedLast(tries: seq<Try>) {
    tries != [] &&
    var last := tries[|tries| - 1];
    last.Read? && 200 <= last.answer.status < 300 && last.answer.success
  }

  /** The status says that the same request may fare differently later. */
  predicate MayPass(status: nat) {
    status == 408 || status == 425 || status == 429 || status >= 500
  }

  /**
   * What every exchange is recorded as, read off its tries: a conflict, an acceptance of this or of another
   * number, a definite failure, or an open one. Nothing is recorded where the profile part cannot be stored.
   */
  lemma RecordedAs(docNo: string, profile: Profile, tries: seq<Try>, setFailure: bool)
    requires tries != []
    ensures var answer, c := LastAnswer(tries), Decide(docNo, profile, ResultOf(tries), setFailure);
            var conflict := profile != NoProfile && answer.Some? && answer.value.mismatch;
            && (conflict ==>
                  c == if profile == Versioned then Some(Completion(Stale, NeedsReview, Some(ExistingDocumentConflict))) else None)
            && (!conflict && AcceptedLast(tries) ==>
                  var a := tries[|tries| - 1].answer;
                  c == if a.docNo != "" && a.docNo != docNo then Some(Completion(Stale, NeedsReview, None))
                       else if profile != Versioned then Some(Completion(Sent, BillSent, None))
                       else if a.profileStored then Some(Completion(Sent, BillSent, Some(a.core))) else None)
            && (!conflict && !AcceptedLast(tries) ==>
                  c.Some? && c.value.core == None && c.value.status == (if setFailure then NeedsReview else Failed)
                  && (c.value.state == FailedExactRetry <==>
                      answer.Some? && !MayPass(answer.value.status) && (answer.value.status >= 400 || tries[|tries| - 1].Read?))
                  && (c.value.state == FailedExactRetry || c.value.state == Unknown))
  {
  }

  /**
   * `sent` is recorded exactly when the last POST was answered in full with an acceptance that
   * names no other document and, with a profile, reports no conflict and a storable status.
   */
  lemma SentExactly(docNo: string, profile: Profile, tries: seq<Try>, setFailure: bool)
    requires tries != []
    ensures Records(docNo, profile, ResultOf(tries), setFailure, Sent) <==>
            var last := tries[|tries| - 1];
            last.Read? && Accepts(last.answer) && (last.answer.docNo == "" || last.answer.docNo == docNo)
            && (profile == NoProfile || !last.answer.mismatch) && (profile.Versioned? ==> last.answer.profileStored)
  {
  }

  /** Bill status and attempt state go together; only an acceptance or a conflict is recorded as the document's own state. */
  lemma StatusesAgree(docNo: string, profile: Profile, r: ClientResult, setFailure: bool)
    requires Decide(docNo, profile, r, setFailure).Some?
    ensures var c := Decide(docNo, profile, r, setFailure).value;
            && (c.status == BillSent <==> c.state == Sent) && (c.state == Stale ==> c.status == NeedsReview)
            && (c.core.Some? ==> profile.Versioned? && c.state in {Sent, Stale}) && c.state != Sending
  {
  }

  /** An exchange in which no POST was answered is never filed as a definite failure. */
  lemma SilenceStaysOpen(docNo: string, profile: Profile, tries: seq<Try>, setFailure: bool)
    requires tries != [] && forall i :: 0 <= i < |tries| ==> tries[i].NoAnswer?
    ensures Records(docNo, profile, ResultOf(tries), setFailure, Unknown)
  {
    LastAnswerFrom(tries);
  }

  /**
   * An exchange is filed as a definite failure only after an answer with a rejecting status;
   * the POSTs after that answer then all went unanswered.
   */
  lemma FailedExactly(docNo: string, profile: Profile, tries: seq<Try>, setFailure: bool)
    requires tries != []
    requires Records(docNo, profile, ResultOf(tries), setFailure, FailedExactRetry)
    ensures exists i :: 0 <= i < |tries| && !tries[i].NoAnswer? && !TransientStatus(tries[i].answer.status)
                        && (tries[|tries| - 1].Read? ==> i == |tries| - 1)
                        && (!tries[|tries| - 1].Read? ==> tries[i].answer.status >= 400)
                        && forall j :: i < j < |tries| ==> tries[j].NoAnswer?
  {
    LastAnswerFrom(tries);
    var i :| 0 <= i < |tries| && !tries[i].NoAnswer? && tries[i].answer == LastAnswer(tries).value
             && forall j :: i < j < |tries| ==> tries[j].NoAnswer?;
    assert !TransientStatus(tries[i].answer.status);
  }

  lemma LastBeforeSilence(tries: seq<Try>)
    requires tries != [] && (forall i :: 0 <= i < |tries| - 1 ==> tries[i].Read?)
    ensures tries[|tries| - 1].NoAnswer? ==>
              LastAnswer(tries) == if |tries| == 1 then None else Some(tries[|tries| - 2].answer)
  {
    var front := tries[..|tries| - 1];
    if front == [] {
      assert LastAnswer(front) == None;
    } else {
      assert front[|front| - 1] == tries[|tries| - 2];
    }
  }

  /** The try whose status rules the document out. */
  predicate Definite(t: Try) {
    || (t.Read? && Rejects(t.answer))
    || (t.Unread? && t.answer.status >= 400 && !TransientStatus(t.answer.status))
  }

  /** Where no POST follows an unanswered one, a definite failure means that the last POST was answered and rejected. */
  lemma FailedWithoutResend(docNo: string, profile: Profile, tries: seq<Try>, setFailure: bool)
    requires tries != [] && (forall i :: 0 <= i < |tries| - 1 ==> tries[i].Read? && !Ends(tries[i]))
    requires Records(docNo, profile, ResultOf(tries), setFailure, FailedExactRetry)
    ensures Definite(tries[|tries| - 1])
  {
    LastBeforeSilence(tries);
  }

  // ----- executing a leased attempt -----

  datatype SendOutcome =
    | SentNow
    | SentBefore
    | LeaseLost
    | Conflict
    | NotRecorded
    | SendFailed(why: FailureClass)

  method ExecuteAttempt(repo: BillRepo, attempt: Attempt, owner: nat, wire: nat -> Try, lost: bool, setFailure: bool)
    returns (outcome: SendOutcome, posts: seq<Payload>, tries: seq<Try>)
    modifies repo
    ensures attempt.state.Sent? ==> outcome == SentBefore && posts == [] && repo.Current() == old(repo.Current())
    ensures !attempt.state.Sent? ==> LoopOf(attempt.route, wire, tries) && |posts| == |tries|
    ensures forall i :: 0 <= i < |posts| ==> posts[i] == attempt.payload
    ensures !attempt.state.Sent? && lost ==> outcome == LeaseLost && repo.Current() == old(repo.Current())
    ensures !attempt.state.Sent? && !lost ==>
              repo.Current() == FinishWith(old(repo.Current()), owner,
                                           Decide(attempt.docNo, attempt.profile, ResultOf(tries), setFailure))
    ensures outcome == SentNow ==>
              old(Holds(repo.Current(), owner)) && repo.attempt.value.state.Sent?
              && repo.row.docNo == Some(repo.attempt.value.docNo)
    ensures outcome.SendFailed? ==> old(Holds(repo.Current(), owner)) && !repo.attempt.value.state.Sent?
    ensures outcome == NotRecorded ==> repo.Current() == old(repo.Current())
    ensures outcome == LeaseLost <==> !attempt.state.Sent? && lost
    ensures !attempt.state.Sent? && !lost ==>
              var c := Decide(attempt.docNo, attempt.profile, ResultOf(tries), setFailure);
              && (outcome == SentNow <==> c.Some? && c.value.state == Sent && old(Holds(repo.Current(), owner)))
              && (outcome == SendFailed(Transient) <==> c.Some? && c.value.state == Unknown && old(Holds(repo.Current(), owner)))
              && (outcome == SendFailed(UserAction) <==> c.Some? && c.value.state == FailedExactRetry && old(Holds(repo.Current(), owner)))
              && (outcome == Conflict ==> c.Some? && c.value.state == Stale)
  {
    if attempt.state.Sent? { return SentBefore, [], []; }
    var result;
    result, posts, tries := PostWithBackoff(attempt.route, attempt.payload, wire);
    if lost { return LeaseLost, posts, tries; }
    var response := result.response;
    var written := false;
    if attempt.profile != NoProfile && response.Some? && response.value.mismatch {
      if attempt.profile.Versioned? {
        written := repo.FinishSMLAttempt(owner, Completion(Stale, NeedsReview, Some(ExistingDocumentConflict)));
      }
      return if written then Conflict else NotRecorded, posts, tries;
    }
    var succeeded := !result.failed && HttpSuccess(result.status) && response.Some? && response.value.success;
    if succeeded && response.value.docNo != "" && response.value.docNo != attempt.docNo {
      written := repo.FinishSMLAttempt(owner, Completion(Stale, NeedsReview, None));
      return Conflict, posts, tries;
    }
    if succeeded {
      if !attempt.profile.Versioned? {
        written := repo.FinishSMLAttempt(owner, Completion(Sent, BillSent, None));
      } else if response.value.profileStored {
        written := repo.FinishSMLAttempt(owner, Completion(Sent, BillSent, Some(response.value.core)));
      }
      return if written then SentNow else NotRecorded, posts, tries;
    }
    var why := ClassifySendFailure(result.status, result.failed);
    var state := if why.Transient? then Unknown else FailedExactRetry;
    written := repo.FinishSMLAttempt(owner, Completion(state, if setFailure then NeedsReview else Failed, None));
    return if written then SendFailed(why) else NotRecorded, posts, tries;
  }
}
