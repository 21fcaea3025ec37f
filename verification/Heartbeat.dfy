/** The lease heartbeat of an executing worker: a 30 s tick, a 5 s renewal timeout, a 300 s lease. */
module Heartbeat {
  import opened Wrappers
  import opened Attempts

  const TICK_SECONDS := 30
  const RENEW_TIMEOUT_SECONDS := 5

  /** One renewal: how long the call took, when within it the database wrote, and whether it reported success. */
  datatype Renewal = Renewal(took: int, wroteAfter: int, ok: bool)

  predicate Prompt(r: Renewal) {
    0 <= r.wroteAfter <= r.took <= RENEW_TIMEOUT_SECONDS
  }

  function TickAt(start: int, k: nat): int {
    start + TICK_SECONDS * k
  }

  /** Tick `k` is served before the stop; at a tie the select may choose either. */
  predicate Served(start: int, stopAt: int, tieServed: bool, k: nat) {
    TickAt(start, k) < stopAt || (tieServed && TickAt(start, k) == stopAt)
  }

  /**
   * Runs from `start` until it is stopped at `stopAt` or a renewal fails. `leasedAt` is when the
   * attempt was leased; the result says when the stop call returned and until when the lease then runs.
   */
  method Beat(leasedAt: int, start: int, stopAt: int, tieServed: bool, renew: nat -> Renewal)
    returns (lost: bool, returned: int, leaseUntil: int, renewals: nat)
    requires forall k :: Prompt(renew(k))
    requires leasedAt <= start <= stopAt
    ensures lost <==> exists k :: 1 <= k && Served(start, stopAt, tieServed, k) && !renew(k).ok
    ensures lost ==> !renew(renewals + 1).ok && Served(start, stopAt, tieServed, renewals + 1)
    ensures forall k :: 1 <= k <= renewals ==> renew(k).ok && Served(start, stopAt, tieServed, k)
    ensures stopAt <= returned <= stopAt + RENEW_TIMEOUT_SECONDS
    ensures leaseUntil == LEASE_SECONDS + (if renewals == 0 then leasedAt else TickAt(start, renewals) + renew(renewals).wroteAfter)
    ensures !lost && start - leasedAt <= 5 ==> leaseUntil - returned >= 265
    ensures !lost && renewals > 0 ==> leaseUntil - returned >= LEASE_SECONDS - TICK_SECONDS
    ensures !lost ==> leaseUntil - returned >= LEASE_SECONDS - TICK_SECONDS - (start - leasedAt)
  {
    lost, leaseUntil, renewals := false, leasedAt + LEASE_SECONDS, 0;
    var idleFrom := start;
    while Served(start, stopAt, tieServed, renewals + 1)
      invariant forall k :: 1 <= k <= renewals ==> renew(k).ok && Served(start, stopAt, tieServed, k)
      invariant leaseUntil == LEASE_SECONDS + (if renewals == 0 then leasedAt else TickAt(start, renewals) + renew(renewals).wroteAfter)
      invariant idleFrom == if renewals == 0 then start else TickAt(start, renewals) + renew(renewals).took
      invariant renewals == 0 || TickAt(start, renewals) <= stopAt
      decreases stopAt - TickAt(start, renewals)
    {
      var tick := TickAt(start, renewals + 1);
      var r := renew(renewals + 1);
      if !r.ok {
        lost := true;
        returned := if stopAt < tick + r.took then tick + r.took else stopAt;
        return;
      }
      renewals := renewals + 1;
      leaseUntil := tick + r.wroteAfter + LEASE_SECONDS;
      idleFrom := tick + r.took;
    }
    returned := if stopAt < idleFrom then idleFrom else stopAt;
    LaterTicksUnserved(start, stopAt, tieServed, renewals + 1);
  }

  lemma LaterTicksUnserved(start: int, stopAt: int, tieServed: bool, k: nat)
    requires !Served(start, stopAt, tieServed, k)
    ensures forall j :: k <= j ==> !Served(start, stopAt, tieServed, j)
  {
  }

  /** While the lease runs no other worker's claim changes anything, so the holder's finishing write is recorded. */
  lemma LeaseExcludes(t: Tables, owner: nat, other: nat, now: int, c: Completion)
    requires Holds(t, owner) && other != owner && t.attempt.value.leaseUntil.Some? && now < t.attempt.value.leaseUntil.value
    ensures ClaimOutcomeOf(t, CODE_CLAIMABLE, other, now) == Busy
    ensures Claim(t, CODE_CLAIMABLE, other, now) == t
    ensures Renew(t, owner, now).attempt.value.leaseUntil == Some(now + 300)
    ensures Finish(Claim(t, CODE_CLAIMABLE, other, now), owner, c).attempt.value.state == c.state
  {
  }
}
