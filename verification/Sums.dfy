/** How the sums over the audit log and the ledger move when a row is added or reversed. */
module Sums {
  import opened Common
  import opened Books

  /** Log ids were drawn in order. */
  ghost predicate LogsOrdered(logs: seq<LogRow>, next: Id) {
    && (forall i :: 0 <= i < |logs| ==> logs[i].id < next)
    && (forall i, j :: 0 <= i < j < |logs| ==> logs[i].id < logs[j].id)
  }

  /** So were the log ids the ledger rows point to; in particular they are unique. */
  ghost predicate LedgerOrdered(ledger: seq<LedgerRow>, next: Id) {
    && (forall i :: 0 <= i < |ledger| ==> ledger[i].logId < next)
    && (forall i, j :: 0 <= i < j < |ledger| ==> ledger[i].logId < ledger[j].logId)
  }

  lemma TotalAppend(logs: seq<LogRow>, row: LogRow, weight: LogRow -> int, dropped: set<Id>)
    ensures Total(logs + [row], weight, dropped)
         == Total(logs, weight, dropped) + if row.id in dropped then 0 else weight(row)
  {
    assert (logs + [row])[..|logs|] == logs;
  }

  lemma {:induction false} TotalDropsUnknown(logs: seq<LogRow>, weight: LogRow -> int, dropped: set<Id>, id: Id)
    requires forall i :: 0 <= i < |logs| ==> logs[i].id != id
    ensures Total(logs, weight, dropped + {id}) == Total(logs, weight, dropped)
  {
    if logs != [] {
      TotalDropsUnknown(logs[..|logs| - 1], weight, dropped, id);
    }
  }

  lemma {:induction false} TotalDrops(logs: seq<LogRow>, next: Id, weight: LogRow -> int, dropped: set<Id>, k: nat)
    requires LogsOrdered(logs, next) && k < |logs| && logs[k].id !in dropped
    ensures Total(logs, weight, dropped + {logs[k].id}) == Total(logs, weight, dropped) - weight(logs[k])
  {
    var n := |logs| - 1;
    if k == n {
      TotalDropsUnknown(logs[..n], weight, dropped, logs[k].id);
    } else {
      TotalDrops(logs[..n], next, weight, dropped, k);
    }
  }

  lemma {:induction false} TotalCoversEach(logs: seq<LogRow>, weight: LogRow -> int, dropped: set<Id>)
    requires forall i :: 0 <= i < |logs| ==> weight(logs[i]) >= 0
    ensures Total(logs, weight, dropped) >= 0
    ensures forall k :: 0 <= k < |logs| && logs[k].id !in dropped ==> Total(logs, weight, dropped) >= weight(logs[k])
  {
    if logs != [] {
      TotalCoversEach(logs[..|logs| - 1], weight, dropped);
    }
  }

  /** Splitting off the rows of a set of ids. */
  ghost function TotalWithin(logs: seq<LogRow>, weight: LogRow -> int, ids: set<Id>): int {
    if logs == [] then 0
    else
      var last := logs[|logs| - 1];
      TotalWithin(logs[..|logs| - 1], weight, ids) + if last.id in ids then weight(last) else 0
  }

  lemma {:induction false} TotalSplits(logs: seq<LogRow>, weight: LogRow -> int, dropped: set<Id>, ids: set<Id>)
    requires dropped !! ids
    ensures Total(logs, weight, dropped) == Total(logs, weight, dropped + ids) + TotalWithin(logs, weight, ids)
  {
    if logs != [] {
      TotalSplits(logs[..|logs| - 1], weight, dropped, ids);
    }
  }

  lemma SumAppend(ledger: seq<LedgerRow>, row: LedgerRow, weight: LedgerRow -> int)
    ensures Sum(ledger + [row], weight) == Sum(ledger, weight) + if row.status == Confirmed then weight(row) else 0
  {
    assert (ledger + [row])[..|ledger|] == ledger;
  }

  lemma ReverseUnknown(ledger: seq<LedgerRow>, logId: Id)
    requires !HasLogId(ledger, logId)
    ensures Reverse(ledger, logId) == ledger
  {
  }

  lemma {:induction false} SumReverses(ledger: seq<LedgerRow>, next: Id, weight: LedgerRow -> int, k: nat)
    requires LedgerOrdered(ledger, next) && k < |ledger| && ledger[k].status == Confirmed
    ensures Sum(Reverse(ledger, ledger[k].logId), weight) == Sum(ledger, weight) - weight(ledger[k])
  {
    var n := |ledger| - 1;
    var id := ledger[k].logId;
    assert Reverse(ledger, id)[..n] == Reverse(ledger[..n], id);
    if k == n {
      ReverseUnknown(ledger[..n], id);
    } else {
      SumReverses(ledger[..n], next, weight, k);
    }
  }

  lemma ReversedIdsAppend(ledger: seq<LedgerRow>, row: LedgerRow)
    requires row.status == Confirmed
    ensures ReversedIds(ledger + [row]) == ReversedIds(ledger)
  {
    var all := ledger + [row];
    forall id ensures id in ReversedIds(all) <==> id in ReversedIds(ledger) {
      if id in ReversedIds(ledger) {
        var i :| 0 <= i < |ledger| && ledger[i].status == Reversed && ledger[i].logId == id;
        assert all[i] == ledger[i];
      }
    }
  }

  lemma ReversedIdsReverse(ledger: seq<LedgerRow>, logId: Id)
    requires HasLogId(ledger, logId)
    ensures ReversedIds(Reverse(ledger, logId)) == ReversedIds(ledger) + {logId}
  {
    var all := Reverse(ledger, logId);
    forall id ensures id in ReversedIds(all) <==> id in ReversedIds(ledger) || id == logId {
      if id in ReversedIds(ledger) {
        var i :| 0 <= i < |ledger| && ledger[i].status == Reversed && ledger[i].logId == id;
        assert all[i].status == Reversed && all[i].logId == id;
      }
      if id == logId {
        var i :| 0 <= i < |ledger| && ledger[i].logId == logId;
        assert all[i].status == Reversed && all[i].logId == id;
      }
    }
  }

  lemma {:induction false} LookupFinds(logs: seq<LogRow>, next: Id, k: nat)
    requires LogsOrdered(logs, next) && k < |logs|
    ensures CostOfLog(logs, logs[k].id) == logs[k].cost && AgentOfLog(logs, logs[k].id) == Some(logs[k].agent)
  {
    var n := |logs| - 1;
    if k < n {
      LookupFinds(logs[..n], next, k);
    }
  }

  /** A rebuild counts a row exactly when it succeeded and no ledger row of its log id is reversed. */
  lemma RebuildCounts(logs: seq<LogRow>, ledger: seq<LedgerRow>, row: LogRow)
    ensures RebuiltSpend([], ledger) == 0
    ensures RebuiltSpend(logs + [row], ledger)
         == RebuiltSpend(logs, ledger)
            + if row.result == Success && (forall i :: 0 <= i < |ledger| && ledger[i].logId == row.id ==> ledger[i].status != Reversed)
              then row.cost else 0
  {
    assert (logs + [row])[..|logs|] == logs;
    assert row.id in ReversedIds(ledger) <==> exists i :: 0 <= i < |ledger| && ledger[i].status == Reversed && ledger[i].logId == row.id;
  }

  /** A balance counts a row exactly when it is the agent's and confirmed. */
  lemma BalanceCounts(ledger: seq<LedgerRow>, row: LedgerRow, agent: Id)
    ensures Balance([], agent) == 0
    ensures Balance(ledger + [row], agent)
         == Balance(ledger, agent) + if row.agent == agent && row.status == Confirmed then row.delta else 0
  {
    assert (ledger + [row])[..|ledger|] == ledger;
  }
}
