/** The four views of the same money and tokens: the live counter, the total rebuilt from the audit log, the ledger
  * balances, and the settlement and snapshot totals. */
module FourViews {
  import opened Common
  import opened Books
  import opened Sums
  import opened Engine
  import opened Accounting
  import opened History
  import Settlement
  import Concentration
  import Snapshots
  import Audit

  /** Main result: in every state a new covenant with a budget can reach by the repository's operations, with runs failing
    * anywhere up to Step 6: the counter is the rebuilt total less the orphaned costs since the last rebuild; the
    * snapshot's costs are the rebuilt total plus the refunds; and the settlement total, the snapshot's tokens and the
    * concentration total with its debts are one number, the un-rejected approvals minus the un-rejected entry fees. */
  lemma FourViewsAgree(b0: Books, ops: seq<Op>, sha: Audit.Hash, names: Snapshots.Names, covenant: string, snapped: string,
                       members: seq<Id>, earners: seq<Id>, rows: seq<Concentration.Row>, threshold: real)
    requires Idle(b0) && Snapshots.Enrolled(b0) && b0.counter.Some? && b0.counter.value.spent == 0
    requires forall i :: 0 <= i < |ops| ==> Ordinary(ops[i])
    requires Settlement.Enumerates(members, Replay(b0, ops).members.Keys)
    requires Settlement.Enumerates(earners, Settlement.ConfirmedAgents(Replay(b0, ops).ledger))
    requires Settlement.IsGrouping(rows, Replay(b0, ops).ledger)
    ensures var b := Replay(b0, ops);
            var orphans, missed := Orphans(b0, ops, {}), Missed(b0, ops, {});
            var snapshot := Snapshots.TakenAll(Snapshots.Taken(sha, names, covenant, snapped, b), members);
            var settled := Settlement.SumOver(earners, Settlement.At(Settlement.Totals(b.ledger)));
            && b.counter.Some?
            && b.counter.value.spent == RebuiltSpend(b.logs, b.ledger) - TotalWithin(b.logs, CostOf, missed)
            && Snapshots.CostsOf(snapshot) == RebuiltSpend(b.logs, b.ledger) + TotalWithin(b.logs, CostOf, ReversedIds(b.ledger))
            && settled == Snapshots.TokensOf(snapshot)
            && settled == Concentration.Report(rows, threshold).total + Concentration.Debts(rows)
            && settled == Total(b.logs, AwardOf, ReversedIds(b.ledger) + orphans) - Sum(b.ledger, FeeOf)
  {
    var b := Replay(b0, ops);
    StartsInAgreement(b0);
    CounterFollowsLog(b0, ops, {}, {});
    TokensAreConserved(b0, ops, {});
    ConservedSums(b, Orphans(b0, ops, {}));
    hide Replay, Conserved, Matched, Settlement.Enumerates, Settlement.IsGrouping, Snapshots.Enrolled, Ordinary;
    Snapshots.SnapshotAgreesWithLedger(sha, names, covenant, snapped, b0, ops, members);
    Settlement.TotalsAddUp(b.ledger, earners);
    Concentration.SettlementIsConcentrationPlusDebts(b.ledger, rows, threshold);
  }

  lemma ConservedSums(b: Books, orphans: set<Id>)
    requires Conserved(b, orphans)
    ensures Sum(b.ledger, DeltaOf) == Total(b.logs, AwardOf, ReversedIds(b.ledger) + orphans) - Sum(b.ledger, FeeOf)
  {
  }
}
