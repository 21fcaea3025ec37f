/** Bulk SML send jobs: the runner over a job's items, recovery after a restart, retrying the failures. */
module BulkJobs {
  import opened Wrappers
  import Attempts
  import Text

  datatype ItemStatus = Queued | Running | ItemSent | Skipped | ItemFailed

  datatype JobStatus = JobQueued | JobRunning | Completed | CompletedWithErrors | JobFailed

  datatype Item = Item(billId: string, status: ItemStatus, attempts: nat)

  /** What loading the item's bill and sending it turn out to be. */
  datatype Load = Missing | LoadedBill(purchaseOff: bool, archived: bool, status: Attempts.BillStatus)

  datatype Reply = Reply(httpStatus: int, skipped: bool)

  /** The database and the sender during one item; the two flags are the item's own writes. */
  datatype Circumstance = Circumstance(startOk: bool, load: Load, reply: Reply, finishOk: bool)

  /** The job's row is gone when it is loaded, a check before the loop fails, or the loop is entered. */
  datatype Start = Vanished | Refused | Ready

  // ----- the runner -----

  /** The status a started item is finished with. */
  function Verdict(c: Circumstance): (s: ItemStatus)
    ensures s.ItemSent? || s.Skipped? || s.ItemFailed?
  {
    if c.load.Missing? || c.load.purchaseOff || c.load.archived || !Attempts.Sendable(c.load.status) then Skipped
    else if c.reply.httpStatus == 200 then ItemSent
    else if c.reply.skipped || c.reply.httpStatus == 202 then Skipped
    else ItemFailed
  }

  function After(item: Item, c: Circumstance): Item {
    if !item.status.Queued? || !c.startOk then item
    else item.(attempts := item.attempts + 1, status := if c.finishOk then Verdict(c) else Running)
  }

  function Count(items: seq<Item>, status: ItemStatus): nat {
    if items == [] then 0
    else Count(items[..|items| - 1], status) + (if items[|items| - 1].status == status then 1 else 0)
  }

  class BulkJob {
    var status: JobStatus
    var items: seq<Item>
    var sent: nat
    var failed: nat
    var skipped: nat

    constructor (billIds: seq<string>)
      ensures status == JobQueued && |items| == |billIds|
      ensures forall i :: 0 <= i < |billIds| ==> items[i] == Item(billIds[i], Queued, 0)
      ensures sent == failed == skipped == 0
    {
      status, sent, failed, skipped := JobQueued, 0, 0, 0;
      items := seq(|billIds|, i requires 0 <= i < |billIds| => Item(billIds[i], Queued, 0));
    }

    /** Counts one status among the items. */
    method CountItems(s: ItemStatus) returns (n: nat)
      ensures n == Count(items, s)
    {
      n := 0;
      for i := 0 to |items|
        invariant n == Count(items[..i], s)
      {
        assert items[..i + 1][..i] == items[..i];
        if items[i].status == s { n := n + 1; }
      }
      assert items[..|items|] == items;
    }

    method RefreshCounts()
      modifies this`sent, this`failed, this`skipped
      ensures sent == Count(items, ItemSent) && failed == Count(items, ItemFailed) && skipped == Count(items, Skipped)
    {
      sent := CountItems(ItemSent);
      failed := CountItems(ItemFailed);
      skipped := CountItems(Skipped);
    }

    method FinalizeJob()
      modifies this
      ensures items == old(items)
      ensures sent == Count(items, ItemSent) && failed == Count(items, ItemFailed) && skipped == Count(items, Skipped)
      ensures status == if Count(items, ItemFailed) > 0 then CompletedWithErrors else Completed
    {
      RefreshCounts();
      status := if failed > 0 then CompletedWithErrors else Completed;
    }

    /** `start` is how the checks before the loop end; `during` is what happens at each item. */
    method RunBulkSendJob(start: Start, during: nat -> Circumstance, finalizeOk: bool)
      modifies this
      ensures |items| == |old(items)|
      ensures start.Vanished? ==> items == old(items) && status in {old(status), JobRunning}
      ensures start.Refused? ==> items == old(items) && status == JobFailed
      ensures start.Ready? ==> forall i :: 0 <= i < |items| ==> items[i] == After(old(items)[i], during(i))
      ensures start.Ready? && finalizeOk ==>
                sent == Count(items, ItemSent) && failed == Count(items, ItemFailed) && skipped == Count(items, Skipped)
                && status == if failed > 0 then CompletedWithErrors else Completed
      ensures start.Ready? && !finalizeOk ==> status == JobFailed
    {
      if status.JobQueued? { status := JobRunning; }
      if start.Vanished? { return; }
      if start.Refused? {
        status := JobFailed;
        return;
      }
      var snapshot := items;
      for i := 0 to |snapshot|
        invariant |items| == |snapshot|
        invariant forall j :: 0 <= j < i ==> items[j] == After(snapshot[j], during(j))
        invariant forall j :: i <= j < |snapshot| ==> items[j] == snapshot[j]
      {
        if !snapshot[i].status.Queued? { continue; }
        var c := during(i);
        if !c.startOk { continue; }
        items := items[i := items[i].(status := Running, attempts := items[i].attempts + 1)];
        var finished;
        if c.load.Missing? || c.load.purchaseOff || c.load.archived {
          finished := Skipped;
        } else if !c.load.status.Pending? && !c.load.status.Failed? && !c.load.status.NeedsReview? {
          finished := Skipped;
        } else if c.reply.httpStatus == 200 {
          finished := ItemSent;
        } else if c.reply.skipped || c.reply.httpStatus == 202 {
          finished := Skipped;
        } else {
          finished := ItemFailed;
        }
        if c.finishOk { items := items[i := items[i].(status := finished)]; }
        RefreshCounts();
      }
      if finalizeOk {
        FinalizeJob();
      } else {
        status := JobFailed;
      }
    }

    /** After a restart nothing is in progress: queued and running items are failed, and so is the job. */
    method RecoverInterrupted()
      modifies this
      ensures |items| == |old(items)|
      ensures old(status.JobQueued? || status.JobRunning?) ==>
                && status == JobFailed
                && (forall i :: 0 <= i < |items| ==>
                      items[i] == if old(items)[i].status.Queued? || old(items)[i].status.Running?
                                  then old(items)[i].(status := ItemFailed) else old(items)[i])
                && failed == Count(items, ItemFailed)
      ensures !old(status.JobQueued? || status.JobRunning?) ==> items == old(items) && status == old(status)
    {
      if !status.JobQueued? && !status.JobRunning? { return; }
      var was := items;
      for i := 0 to |was|
        invariant |items| == |was|
        invariant forall j :: 0 <= j < i ==>
                    items[j] == if was[j].status.Queued? || was[j].status.Running? then was[j].(status := ItemFailed) else was[j]
        invariant forall j :: i <= j < |was| ==> items[j] == was[j]
      {
        if was[i].status.Queued? || was[i].status.Running? { items := items[i := was[i].(status := ItemFailed)]; }
      }
      RefreshCounts();
      status := JobFailed;
    }

    method FailedBillIDs() returns (ids: seq<string>)
      ensures ids == FailedBills(items)
    {
      ids := [];
      for i := 0 to |items|
        invariant ids == FailedBills(items[..i])
      {
        assert items[..i + 1][..i] == items[..i];
        if items[i].status.ItemFailed? { ids := ids + [items[i].billId]; }
      }
      assert items[..|items|] == items;
    }
  }

  function FailedBills(items: seq<Item>): seq<string> {
    if items == [] then []
    else
      var last := items[|items| - 1];
      FailedBills(items[..|items| - 1]) + (if last.status.ItemFailed? then [last.billId] else [])
  }

  // ----- accounting -----

  predicate RunOf(before: seq<Item>, after: seq<Item>, during: nat -> Circumstance) {
    |after| == |before| && forall i :: 0 <= i < |before| ==> after[i] == After(before[i], during(i))
  }

  /** How many of the items queued before the run now have a status. */
  function CountOfQueued(before: seq<Item>, after: seq<Item>, status: ItemStatus): nat
    requires |before| == |after|
  {
    if before == [] then 0
    else
      var n := |before| - 1;
      CountOfQueued(before[..n], after[..n], status)
      + (if before[n].status.Queued? && after[n].status == status then 1 else 0)
  }

  /** Every queued item is accounted for once: sent, skipped, failed, not started, or started but not written back. */
  lemma {:induction false} RunConserves(before: seq<Item>, after: seq<Item>, during: nat -> Circumstance)
    requires RunOf(before, after, during)
    ensures CountOfQueued(before, after, ItemSent) + CountOfQueued(before, after, Skipped) + CountOfQueued(before, after, ItemFailed)
            + CountOfQueued(before, after, Queued) + CountOfQueued(before, after, Running) == Count(before, Queued)
    ensures (forall i :: 0 <= i < |before| ==> during(i).finishOk) ==> CountOfQueued(before, after, Running) == 0
  {
    if before != [] {
      var n := |before| - 1;
      RunConserves(before[..n], after[..n], during);
    }
  }

  /**
   * A job that is closed as completed has nothing left over exactly when every start and finishing write
   * of its queued items succeeded and no item was left running before.
   */
  lemma LeftOverExactly(before: seq<Item>, after: seq<Item>, during: nat -> Circumstance)
    requires RunOf(before, after, during)
    ensures (forall i :: 0 <= i < |after| ==> !after[i].status.Queued? && !after[i].status.Running?) <==>
            (forall i :: 0 <= i < |before| ==>
               !before[i].status.Running? && (before[i].status.Queued? ==> during(i).startOk && during(i).finishOk))
  {
    if forall i :: 0 <= i < |after| ==> !after[i].status.Queued? && !after[i].status.Running? {
      forall i | 0 <= i < |before|
        ensures !before[i].status.Running? && (before[i].status.Queued? ==> during(i).startOk && during(i).finishOk)
      {
        assert after[i] == After(before[i], during(i));
      }
    }
  }

  /** A retry job holds exactly the bills whose items failed, in their order. */
  lemma {:induction false} RetryHoldsFailures(items: seq<Item>, billId: string)
    ensures billId in FailedBills(items) <==> exists i :: 0 <= i < |items| && items[i].status.ItemFailed? && items[i].billId == billId
    ensures |FailedBills(items)| == Count(items, ItemFailed)
  {
    if items != [] {
      var n := |items| - 1;
      RetryHoldsFailures(items[..n], billId);
      if billId in FailedBills(items[..n]) {
        var i :| 0 <= i < n && items[..n][i].status.ItemFailed? && items[..n][i].billId == billId;
        assert items[i].billId == billId;
      }
      if i :| 0 <= i < |items| && items[i].status.ItemFailed? && items[i].billId == billId {
        if i < n { assert items[..n][i] == items[i]; }
      }
    }
  }

  // ----- final statuses, written on what happened at the item -----

  /** The item was started and its bill is there, live, not a switched-off purchase and in a status that is sent. */
  predicate Sends(c: Circumstance) {
    match c
    case Circumstance(true, LoadedBill(false, false, status), _, _) => status in {Attempts.Pending, Attempts.Failed, Attempts.NeedsReview}
    case _ => false
  }

  /** How a run leaves a queued item: exactly when it is sent, skipped, failed, left running and left queued. */
  lemma RunExactly(before: seq<Item>, after: seq<Item>, during: nat -> Circumstance, i: nat)
    requires RunOf(before, after, during) && i < |before| && before[i].status == Queued
    ensures var c, now := during(i), after[i].status;
            && (now == ItemSent <==> Sends(c) && c.reply.httpStatus == 200 && c.finishOk)
            && (now == Skipped <==> c.startOk && c.finishOk
                                    && (Sends(c) ==> c.reply.httpStatus != 200 && (c.reply.skipped || c.reply.httpStatus == 202)))
            && (now == ItemFailed <==> Sends(c) && c.reply.httpStatus !in {200, 202} && !c.reply.skipped && c.finishOk)
            && (now == Running <==> c.startOk && !c.finishOk)
            && (now == Queued <==> !c.startOk)
    ensures after[i].billId == before[i].billId && after[i].attempts == before[i].attempts + (if during(i).startOk then 1 else 0)
  {
  }

  /** Items that were not queued are not touched. */
  lemma OthersUntouched(before: seq<Item>, after: seq<Item>, during: nat -> Circumstance, i: nat)
    requires RunOf(before, after, during) && i < |before| && before[i].status != Queued
    ensures after[i] == before[i]
  {
  }

  /** The retry job of a new job's run holds exactly the bills sent with a reply that is neither 200, nor 202, nor a skip. */
  lemma RetryExactly(before: seq<Item>, after: seq<Item>, during: nat -> Circumstance, billId: string)
    requires RunOf(before, after, during) && forall i :: 0 <= i < |before| ==> before[i].status == Queued
    ensures billId in FailedBills(after) <==>
            exists i :: 0 <= i < |before| && before[i].billId == billId && Sends(during(i)) && during(i).finishOk
                        && during(i).reply.httpStatus !in {200, 202} && !during(i).reply.skipped
  {
    RetryHoldsFailures(after, billId);
    forall i | 0 <= i < |before|
      ensures after[i].billId == before[i].billId
      ensures after[i].status == ItemFailed <==>
              Sends(during(i)) && during(i).reply.httpStatus !in {200, 202} && !during(i).reply.skipped && during(i).finishOk
    { RunExactly(before, after, during, i); }
    if billId in FailedBills(after) {
      var i :| 0 <= i < |after| && after[i].status.ItemFailed? && after[i].billId == billId;
      assert before[i].billId == billId;
    }
    if i :| 0 <= i < |before| && before[i].billId == billId && after[i].status == ItemFailed {
      assert after[i].billId == billId;
    }
  }

  predicate DistinctBills(items: seq<Item>) {
    forall i, j :: 0 <= i < j < |items| ==> items[i].billId != items[j].billId
  }

  /** ... each once, when the job held each bill once. */
  lemma {:induction false} RetryHoldsOnce(items: seq<Item>)
    requires DistinctBills(items)
    ensures forall i, j :: 0 <= i < j < |FailedBills(items)| ==> FailedBills(items)[i] != FailedBills(items)[j]
  {
    if items != [] {
      var n := |items| - 1;
      RetryHoldsOnce(items[..n]);
      RetryHoldsFailures(items[..n], items[n].billId);
    }
  }

  // ----- the bill ids of a request -----

  predicate UuidChar(i: nat, c: char) {
    if i in {8, 13, 18, 23} then c == '-' else '0' <= c <= '9' || 'a' <= c <= 'f' || 'A' <= c <= 'F'
  }

  predicate UuidLike(s: string) {
    |s| == 36 && forall i :: 0 <= i < |s| ==> UuidChar(i, s[i])
  }

  function TrimmedIds(ids: seq<string>): (r: seq<string>)
    ensures |r| == |ids|
  {
    seq(|ids|, i requires 0 <= i < |ids| => Text.Trim(ids[i]))
  }

  predicate GoodIds(ids: seq<string>) {
    && 1 <= |ids| <= 100
    && (forall i :: 0 <= i < |ids| ==> UuidLike(TrimmedIds(ids)[i]))
    && (forall i, j :: 0 <= i < j < |ids| ==> TrimmedIds(ids)[i] != TrimmedIds(ids)[j])
  }

  const HEX := "0123456789abcdefABCDEF"

  lemma {:induction false} HexExactly(c: char)
    ensures c in HEX <==> '0' <= c <= '9' || 'a' <= c <= 'f' || 'A' <= c <= 'F'
  {
    if '0' <= c <= '9' {
      assert HEX[c as int - '0' as int] == c;
    } else if 'a' <= c <= 'f' {
      assert HEX[10 + (c as int - 'a' as int)] == c;
    } else if 'A' <= c <= 'F' {
      assert HEX[16 + (c as int - 'A' as int)] == c;
    } else {
      assert forall i :: 0 <= i < |HEX| ==> HEX[i] != c;
    }
  }

  /** 36 characters: hyphens at 8, 13, 18 and 23, hexadecimal digits elsewhere. */
  lemma UuidExactly(s: string)
    ensures UuidLike(s) <==>
            && |s| == 36 && s[8] == s[13] == s[18] == s[23] == '-'
            && forall i :: 0 <= i < 36 && i != 8 && i != 13 && i != 18 && i != 23 ==> s[i] in HEX
  {
    if |s| == 36 {
      forall i | 0 <= i < 36 ensures UuidChar(i, s[i]) <==> if i in {8, 13, 18, 23} then s[i] == '-' else s[i] in HEX {
        HexExactly(s[i]);
      }
    }
  }

  /** Accepted are 1 to 100 ids that are UUIDs once trimmed, no two of them the same. */
  lemma GoodIdsExactly(ids: seq<string>)
    ensures GoodIds(ids) <==>
            && 0 < |ids| <= 100
            && (forall i :: 0 <= i < |ids| ==> UuidLike(Text.Trim(ids[i])))
            && (forall i, j :: 0 <= i < j < |ids| ==> Text.Trim(ids[i]) != Text.Trim(ids[j]))
    ensures |TrimmedIds(ids)| == |ids| && forall i :: 0 <= i < |ids| ==> TrimmedIds(ids)[i] == Text.Trim(ids[i])
  {
    assert forall i :: 0 <= i < |ids| ==> TrimmedIds(ids)[i] == Text.Trim(ids[i]);
  }

  /** Trims the ids where they stand; a duplicate is found among the trimmed ones. */
  method ValidateBulkBillIDs(ids: array<string>) returns (ok: bool)
    modifies ids
    ensures ok == GoodIds(old(ids[..]))
    ensures ok ==> ids[..] == TrimmedIds(old(ids[..]))
  {
    if ids.Length == 0 || ids.Length > 100 { return false; }
    var seen: set<string> := {};
    ghost var trimmed := TrimmedIds(ids[..]);
    for i := 0 to ids.Length
      invariant forall j :: 0 <= j < i ==> ids[j] == trimmed[j] && UuidLike(trimmed[j])
      invariant forall j :: i <= j < ids.Length ==> ids[j] == old(ids[j])
      invariant forall s :: s in seen <==> exists j :: 0 <= j < i && trimmed[j] == s
      invariant forall j, k :: 0 <= j < k < i ==> trimmed[j] != trimmed[k]
    {
      var id := Text.Trim(ids[i]);
      assert id == trimmed[i];
      if !UuidLike(id) { return false; }
      if id in seen { return false; }
      seen := seen + {id};
      ids[i] := id;
    }
    assert ids[..] == trimmed;
    return true;
  }
}
