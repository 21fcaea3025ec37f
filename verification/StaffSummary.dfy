/** The staff-facing summary of a bill's sending, built from a bill and an attempt that are read one after the other. */
module StaffSummary {
  import opened Wrappers
  import opened Attempts
  import Text

  datatype Resolution = Resolved | Succeeded | Undetermined | Unresolved

  /** The bill as loaded for the summary, with the core status joined from its current attempt. */
  datatype Card = Card(row: BillRow, hasAttempt: bool, core: CoreStatus)

  datatype Summary = Summary(resolution: Resolution, canRetry: bool, docNo: string, failures: nat)

  function CardOf(t: Tables): Card {
    Card(t.row, t.attempt.Some?, if t.attempt.Some? then t.attempt.value.core else NoCore)
  }

  predicate BillCoreCreated(card: Card, attempt: Option<Attempt>) {
    card.row.status == BillSent || card.core == Created || card.core == AlreadyExists
    || (attempt.Some? && attempt.value.state.Sent?)
  }

  function BuildSummary(card: Card, attempt: Option<Attempt>, failureCount: int): Summary {
    var failures: nat := if failureCount < 0 then 0 else failureCount;
    var created := BillCoreCreated(card, attempt);
    Summary(
      if created && failures > 0 then Resolved
      else if created then Succeeded
      else if attempt.Some? && (attempt.value.state.Unknown? || attempt.value.state.Sending?) then Undetermined
      else Unresolved,
      card.hasAttempt && attempt.Some? && attempt.value.state.FailedExactRetry? && !created,
      if attempt.Some? then attempt.value.docNo else if card.row.docNo.Some? then Text.Trim(card.row.docNo.value) else "",
      failures)
  }
}
