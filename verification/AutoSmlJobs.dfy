/** The life of one Auto-SML job in the database, over leases, outcomes, restarts and manual retries. */
module AutoSmlJobs {
  import opened Wrappers
  import AutoSml
  import Bills

  datatype JobStatus = Queued | Running | RetryWait | InReview | Succeeded | FailedJob | CancelledJob

  /** A worker that leased the job, then one that fixed the document time, then one that has sent. */
  datatype Phase = Leased | Timed(documentTime: string) | HasSent

  /**
   * `sends` lists the document time of every send; `transients` counts the transient failures
   * since the job was queued or last retried by hand.
   */
  datatype State = State(
    status: JobStatus, attempts: nat, documentTime: string, linked: bool,
    workers: map<nat, Phase>, next: nat, sends: seq<string>, transients: nat)

  const MAX_ATTEMPTS := 3

  datatype Step =
    | Lease
    | Link(id: nat)
    | FixTime(id: nat, now: string)
    | Send(id: nat)
    | Cancelling(id: nat)
    | Reviewing(id: nat)
    | Contention(id: nat)
    | Transient(id: nat)
    | Succeeding(id: nat)
    | Restart(leaseExpired: bool)
    | RetryJob
    | Disable

  function Ended(s: State, id: nat, status: JobStatus): State {
    s.(status := status, workers := s.workers - {id})
  }

  predicate Waiting(s: State) {
    s.status.Queued? || s.status.RetryWait?
  }

  /** `now` is a formatted clock time, never empty; a stored document time wins over it. */
  function Next(s: State, e: Step): State {
    match e
    case Lease =>
      if !Waiting(s) then s
      else s.(status := Running, attempts := s.attempts + 1, workers := s.workers[s.next := Leased], next := s.next + 1)
    case Link(id) => if id in s.workers then s.(linked := true) else s
    case FixTime(id, now) =>
      if id !in s.workers || !s.workers[id].Leased? || now == "" then s
      else
        var stored := if s.documentTime == "" then now else s.documentTime;
        s.(documentTime := stored, workers := s.workers[id := Timed(stored)])
    case Send(id) =>
      if id !in s.workers || !s.workers[id].Timed? then s
      else s.(sends := s.sends + [s.workers[id].documentTime], workers := s.workers[id := HasSent])
    case Cancelling(id) => if id in s.workers then Ended(s, id, CancelledJob) else s
    case Reviewing(id) => if id in s.workers then Ended(s, id, InReview) else s
    case Contention(id) =>
      if id !in s.workers then s
      else Ended(s, id, RetryWait).(attempts := if s.attempts > 0 then s.attempts - 1 else 0)
    case Transient(id) =>
      if id !in s.workers then s
      else Ended(s, id, if s.attempts >= MAX_ATTEMPTS then FailedJob else RetryWait).(transients := s.transients + 1)
    case Succeeding(id) => if id in s.workers then Ended(s, id, Succeeded) else s
    case Restart(leaseExpired) =>
      s.(workers := map[], status := if s.status.Running? && leaseExpired then Queued else s.status)
    case RetryJob =>
      if s.status.InReview? || s.status.FailedJob? then s.(status := Queued, attempts := 0, linked := false, transients := 0) else s
    case Disable => if Waiting(s) then s.(status := CancelledJob) else s
  }

  function Run(s: State, steps: seq<Step>): State
    decreases |steps|
  {
    if steps == [] then s else Run(Next(s, steps[0]), steps[1..])
  }

  const ENQUEUED := State(Queued, 0, "", false, map[], 0, [], 0)

  // ----- what every step keeps -----

  predicate TimeInv(s: State) {
    && (forall i :: 0 <= i < |s.sends| ==> s.sends[i] == s.documentTime)
    && (s.sends != [] ==> s.documentTime != "")
    && (forall id :: id in s.workers && s.workers[id].Timed? ==> s.workers[id].documentTime == s.documentTime != "")
  }

  /** At most one worker has the job, and each of its leases is paid for in `attempts`. */
  predicate LeaseInv(s: State) {
    && (forall id :: id in s.workers ==> id < s.next)
    && (forall a, b :: a in s.workers && b in s.workers ==> a == b)
    && (s.workers != map[] ==> s.status.Running?)
    && s.transients + (if s.workers == map[] then 0 else 1) <= s.attempts
    && s.transients <= MAX_ATTEMPTS
    && (s.transients == MAX_ATTEMPTS ==> s.status.FailedJob?)
  }

  lemma TimeKept(s: State, e: Step)
    requires TimeInv(s)
    ensures TimeInv(Next(s, e))
  {
  }

  lemma AloneEnds(s: State, id: nat)
    requires LeaseInv(s) && id in s.workers
    ensures s.workers - {id} == map[]
  {
  }

  lemma LeaseKept(s: State, e: Step)
    requires LeaseInv(s)
    ensures LeaseInv(Next(s, e))
  {
    match e
    case Cancelling(id) => if id in s.workers { AloneEnds(s, id); }
    case Reviewing(id) => if id in s.workers { AloneEnds(s, id); }
    case Contention(id) => if id in s.workers { AloneEnds(s, id); }
    case Transient(id) => if id in s.workers { AloneEnds(s, id); }
    case Succeeding(id) => if id in s.workers { AloneEnds(s, id); }
    case FixTime(id, _) => assert id in s.workers ==> id in Next(s, e).workers;
    case Send(id) => assert id in s.workers ==> id in Next(s, e).workers;
    case _ =>
  }

  lemma {:induction false} RunKeeps(s: State, steps: seq<Step>)
    requires TimeInv(s) && LeaseInv(s)
    ensures TimeInv(Run(s, steps)) && LeaseInv(Run(s, steps))
    decreases |steps|
  {
    if steps != [] {
      TimeKept(s, steps[0]);
      LeaseKept(s, steps[0]);
      RunKeeps(Next(s, steps[0]), steps[1..]);
    }
  }

  lemma {:induction false} TimeForever(s: State, steps: seq<Step>)
    requires s.documentTime != ""
    ensures Run(s, steps).documentTime == s.documentTime
    decreases |steps|
  {
    if steps != [] { TimeForever(Next(s, steps[0]), steps[1..]); }
  }

  /** Every send of a job, over all retries by the worker or by hand, carries the document time of the first. */
  lemma OneDocumentTime(steps: seq<Step>)
    ensures var s := Run(ENQUEUED, steps);
            forall i, j :: 0 <= i < |s.sends| && 0 <= j < |s.sends| ==> s.sends[i] == s.sends[j] != ""
  {
    RunKeeps(ENQUEUED, steps);
  }

  /** Between two manual retries a job fails transiently at most three times, and the third failure is final. */
  lemma BoundedFailures(steps: seq<Step>)
    ensures Run(ENQUEUED, steps).transients <= 3
    ensures Run(ENQUEUED, steps).transients == 3 ==> Run(ENQUEUED, steps).status.FailedJob?
    ensures |Run(ENQUEUED, steps).workers| <= 1
  {
    RunKeeps(ENQUEUED, steps);
    var s := Run(ENQUEUED, steps);
    if s.workers != map[] {
      var a :| a in s.workers;
      assert s.workers.Keys == {a};
      assert |s.workers.Keys| == |s.workers|;
    }
  }

  // ----- a worker's run on the stored job -----

  /** The database step behind an effect of the worker `id`; pausing the shop does not touch the job. */
  function StepsOf(id: nat, effects: seq<AutoSml.Effect>): seq<Step> {
    if effects == [] then []
    else
      (match effects[0]
       case PauseForRouteChange => []
       case LinkBill(_) => [Link(id)]
       case GetOrSetDocumentTime(now) => [FixTime(id, now)]
       case SendBill(_, _) => [Send(id)]
       case MarkCancelled(_) => [Cancelling(id)]
       case MarkNeedsReview(_) => [Reviewing(id)]
       case MarkContentionRetry => [Contention(id)]
       case MarkTransient(_) => [Transient(id)]
       case MarkSucceeded(_) => [Succeeding(id)]) + StepsOf(id, effects[1..])
  }

  /** The time the database hands back to a worker that proposes `now`. */
  function Persisted(s: State, now: string): string {
    if s.documentTime == "" then now else s.documentTime
  }

  lemma RunFour(s: State, a: Step, b: Step, c: Step, d: Step)
    ensures Run(s, [a, b, c, d]) == Next(Next(Next(Next(s, a), b), c), d)
  {
    var s1, s2, s3 := Next(s, a), Next(Next(s, a), b), Next(Next(Next(s, a), b), c);
    assert Run(s3, [d]) == Next(s3, d) by { assert [d][1..] == []; }
    assert Run(s2, [c, d]) == Next(s3, d) by { assert [c, d][1..] == [d]; }
    assert Run(s1, [b, c, d]) == Next(s3, d) by { assert [b, c, d][1..] == [c, d]; }
    assert [a, b, c, d][1..] == [b, c, d];
  }

  predicate Finishes(e: Step, id: nat) {
    e in {Cancelling(id), Reviewing(id), Contention(id), Transient(id), Succeeding(id)}
  }

  /** The effects of a run that sends, with any outcome. */
  function SendEffects(r: AutoSml.Readings, outcome: AutoSml.Effect): seq<AutoSml.Effect>
    requires r.bill.Some? && r.billAgain.Some? && r.storedTime.Some?
  {
    [AutoSml.LinkBill(Bills.AmountFingerprint(r.bill.value.items)), AutoSml.GetOrSetDocumentTime(r.now),
     AutoSml.SendBill(r.billAgain.value.items, r.storedTime.value), outcome]
  }

  lemma SendSteps(id: nat, r: AutoSml.Readings, outcome: AutoSml.Effect) returns (last: Step)
    requires r.bill.Some? && r.billAgain.Some? && r.storedTime.Some? && AutoSml.Outcome(outcome)
    ensures StepsOf(id, SendEffects(r, outcome)) == [Link(id), FixTime(id, r.now), Send(id), last] && Finishes(last, id)
    ensures StepsOf(id, [outcome]) == [last]
  {
    var e := SendEffects(r, outcome);
    StepsCons(id, e[3], []);
    StepsCons(id, e[2], [e[3]]);
    StepsCons(id, e[1], [e[2], e[3]]);
    StepsCons(id, e[0], [e[1], e[2], e[3]]);
    last := StepsOf(id, [e[3]])[0];
  }

  /**
   * A run of the worker that sends leaves exactly one more send, at the persisted time, and releases the
   * job, which is completed if and only if the send was answered with 200. The outcome is the one the
   * worker's contract allows.
   */
  lemma SendingRun(s: State, id: nat, job: AutoSml.Job, r: AutoSml.Readings, outcome: AutoSml.Effect)
    requires LeaseInv(s) && id in s.workers && s.workers[id].Leased? && AutoSml.Sends(job, r)
    requires r.now != "" && r.storedTime == Some(Persisted(s, r.now))
    requires AutoSml.Outcome(outcome) && (outcome.MarkSucceeded? <==> AutoSml.EndsSucceeded(job, r))
    requires outcome.MarkTransient? <==> AutoSml.EndsTransient(job, r)
    ensures var end := Run(s, StepsOf(id, SendEffects(r, outcome)));
            && end.sends == s.sends + [r.storedTime.value] && end.documentTime == r.storedTime.value
            && end.workers == map[] && !end.status.Running?
            && (end.status == Succeeded <==> r.sending.httpStatus == 200)
            && (end.status == FailedJob ==> r.sending.httpStatus != 200 && s.attempts >= 3)
  {
    var last := SendSteps(id, r, outcome);
    RunFour(s, Link(id), FixTime(id, r.now), Send(id), last);
    AloneEnds(s, id);
    SentOnce(s, id, r.now);
    var s3 := Next(Next(Next(s, Link(id)), FixTime(id, r.now)), Send(id));
    Released(s3, s, id, last);
    OutcomeStatus(s3, id, outcome, last);
  }

  /** What each outcome call makes of the job. */
  lemma OutcomeStatus(s: State, id: nat, outcome: AutoSml.Effect, last: Step)
    requires id in s.workers && AutoSml.Outcome(outcome) && StepsOf(id, [outcome]) == [last]
    ensures var end := Next(s, last);
            && (end.status == Succeeded <==> outcome.MarkSucceeded?)
            && (end.status == InReview <==> outcome.MarkNeedsReview?)
            && (end.status == CancelledJob <==> outcome.MarkCancelled?)
            && (end.status == FailedJob <==> outcome.MarkTransient? && s.attempts >= 3)
            && (end.status == RetryWait <==> outcome.MarkContentionRetry? || (outcome.MarkTransient? && s.attempts < 3))
  {
    StepsCons(id, outcome, []);
  }

  function Contentions(id: nat, n: nat): seq<Step>
    decreases n
  {
    if n == 0 then [] else [Lease, Contention(id)] + Contentions(id + 1, n - 1)
  }

  /** Runs that meet another sender cost no attempt: however many, the job waits to be leased again as before. */
  lemma {:induction false} ContentionIsFree(s: State, n: nat)
    requires LeaseInv(s) && Waiting(s) && n > 0
    ensures var end := Run(s, Contentions(s.next, n));
            && end.status == RetryWait && end.attempts == s.attempts && end.transients == s.transients
            && end.sends == s.sends && end.documentTime == s.documentTime && end.workers == map[]
    decreases n
  {
    var leased := Next(s, Lease);
    var back := Next(leased, Contention(s.next));
    LeaseKept(s, Lease);
    LeaseKept(leased, Contention(s.next));
    AloneEnds(leased, s.next);
    var rest := Contentions(s.next + 1, n - 1);
    assert Contentions(s.next, n)[0] == Lease && Contentions(s.next, n)[1..][0] == Contention(s.next)
           && Contentions(s.next, n)[1..][1..] == rest;
    assert Run(s, Contentions(s.next, n)) == Run(back, rest);
    if n > 1 { ContentionIsFree(back, n - 1); }
  }

  /** A restart ends the workers; a running job is queued again once its lease has expired, and not before. */
  lemma RestartRequeues(s: State, expired: bool)
    ensures var end := Next(s, Restart(expired));
            && end.workers == map[] && end.attempts == s.attempts && end.sends == s.sends && end.documentTime == s.documentTime
            && (s.status == Running ==> end.status == if expired then Queued else Running)
            && (s.status != Running ==> end.status == s.status)
  {
  }

  /** A retry by hand starts a job in review, or failed for good, afresh; its document time and its sends stay. */
  lemma RetryStartsAfresh(s: State)
    ensures var end := Next(s, RetryJob);
            && (s.status in {InReview, FailedJob} ==> end == s.(status := Queued, attempts := 0, linked := false, transients := 0))
            && (s.status !in {InReview, FailedJob} ==> end == s)
  {
  }

  /** Switching the automation off cancels the jobs still waiting, and leaves every other job and its worker alone. */
  lemma DisableExactly(s: State)
    ensures var end := Next(s, Disable);
            && end == s.(status := end.status)
            && (s.status in {Queued, RetryWait} ==> end.status == CancelledJob)
            && (s.status !in {Queued, RetryWait} ==> end.status == s.status)
  {
  }

  /** A completed job is never sent again, whatever happens to it. */
  lemma {:induction false} CompletedForGood(s: State, steps: seq<Step>)
    requires s.status == Succeeded && s.workers == map[]
    ensures Run(s, steps).status == Succeeded && Run(s, steps).sends == s.sends && Run(s, steps).workers == map[]
    decreases |steps|
  {
    if steps != [] { CompletedForGood(Next(s, steps[0]), steps[1..]); }
  }

  lemma SentOnce(s: State, id: nat, now: string)
    requires id in s.workers && s.workers[id].Leased? && now != ""
    ensures var s3 := Next(Next(Next(s, Link(id)), FixTime(id, now)), Send(id));
            && s3.workers == s.workers[id := HasSent] && s3.sends == s.sends + [Persisted(s, now)]
            && s3.documentTime == Persisted(s, now) && s3.attempts == s.attempts
  {
  }

  lemma Released(s3: State, s: State, id: nat, last: Step)
    requires s3.workers == s.workers[id := HasSent] && s.workers - {id} == map[] && Finishes(last, id)
    ensures var end := Next(s3, last);
            end.workers == map[] && end.sends == s3.sends && end.documentTime == s3.documentTime && !end.status.Running?
  {
    assert s3.workers - {id} == s.workers - {id};
  }

  lemma StepsCons(id: nat, e: AutoSml.Effect, rest: seq<AutoSml.Effect>)
    ensures StepsOf(id, [e] + rest) == StepsOf(id, [e]) + StepsOf(id, rest)
    ensures e.LinkBill? ==> StepsOf(id, [e]) == [Link(id)]
    ensures e.GetOrSetDocumentTime? ==> StepsOf(id, [e]) == [FixTime(id, e.proposal)]
    ensures e.SendBill? ==> StepsOf(id, [e]) == [Send(id)]
    ensures AutoSml.Outcome(e) ==> |StepsOf(id, [e])| == 1 && Finishes(StepsOf(id, [e])[0], id)
    ensures e.MarkSucceeded? ==> StepsOf(id, [e]) == [Succeeding(id)]
    ensures e.MarkNeedsReview? ==> StepsOf(id, [e]) == [Reviewing(id)]
    ensures e.MarkCancelled? ==> StepsOf(id, [e]) == [Cancelling(id)]
    ensures e.MarkTransient? ==> StepsOf(id, [e]) == [Transient(id)]
    ensures e.MarkContentionRetry? ==> StepsOf(id, [e]) == [Contention(id)]
  {
    assert ([e] + rest)[1..] == rest && [e][1..] == [];
  }
}
