/** The concentration report (internal/ratelimit/concentration.go). */
module Concentration {
  import opened Common
  import opened Books
  import opened Ordering
  import opened Settlement

  type Row = (Id, int)

  datatype Entry = Entry(agent: Id, tokens: int, share: real)

  datatype Overview = Overview(threshold: real, total: int, entries: seq<Entry>, warnings: seq<Entry>)

  /** Tokens descending, then agent ascending. */
  predicate Before(x: Row, y: Row) {
    x.1 > y.1 || (x.1 == y.1 && x.0 <= y.0)
  }

  lemma BeforeIsTotal()
    ensures TotalOrder(Before)
  {
  }

  /** The rows with a positive balance. */
  function Holders(rows: seq<Row>): seq<Row> {
    if rows == [] then []
    else
      var last := rows[|rows| - 1];
      Holders(rows[..|rows| - 1]) + if last.1 > 0 then [last] else []
  }

  function RowSum(rows: seq<Row>): int {
    if rows == [] then 0 else RowSum(rows[..|rows| - 1]) + rows[|rows| - 1].1
  }

  function Ranked(rows: seq<Row>): seq<Row> {
    Sort(Holders(rows), Before)
  }

  function Shared(row: Row, total: int): Entry {
    Entry(row.0, row.1, if total > 0 then row.1 as real / total as real * 100.0 else 0.0)
  }

  function Shares(ranked: seq<Row>, total: int): seq<Entry> {
    seq(|ranked|, i requires 0 <= i < |ranked| => Shared(ranked[i], total))
  }

  function Above(entries: seq<Entry>, threshold: real): seq<Entry> {
    if entries == [] then []
    else
      var last := entries[|entries| - 1];
      Above(entries[..|entries| - 1], threshold) + if last.share > threshold then [last] else []
  }

  /** What the report of a set of grouped rows says. */
  function Report(rows: seq<Row>, threshold: real): Overview {
    var total := RowSum(Holders(rows));
    if total == 0 then Overview(threshold, 0, [], [])
    else
      var entries := Shares(Ranked(rows), total);
      Overview(threshold, total, entries, if threshold <= 0.0 then [] else Above(entries, threshold))
  }

  lemma HoldersNext(rows: seq<Row>, k: nat)
    requires k < |rows|
    ensures Holders(rows[..k + 1]) == Holders(rows[..k]) + (if rows[k].1 > 0 then [rows[k]] else [])
    ensures RowSum(Holders(rows[..k + 1])) == RowSum(Holders(rows[..k])) + if rows[k].1 > 0 then rows[k].1 else 0
  {
    assert rows[..k + 1][..k] == rows[..k];
    hide RowSum;
    RowSumSplits(Holders(rows[..k]), [rows[k]]);
    RowSumOfOne(rows[k]);
    assert rows[k].1 <= 0 ==> Holders(rows[..k + 1]) == Holders(rows[..k]);
  }

  /** CheckConcentration. */
  method CheckConcentration(rows: seq<Row>, threshold: real) returns (report: Overview)
    ensures report == Report(rows, threshold)
  {
    var holders: seq<Row> := [];
    var total := 0;
    hide Holders, RowSum, Shared;
    HoldersOfNone(rows);
    for k := 0 to |rows|
      invariant holders == Holders(rows[..k]) && total == RowSum(Holders(rows[..k]))
    {
      HoldersNext(rows, k);
      if rows[k].1 <= 0 {
        continue;
      }
      holders := holders + [rows[k]];
      total := total + rows[k].1;
    }
    assert rows[..|rows|] == rows;
    if total == 0 {
      return Overview(threshold, 0, [], []);
    }
    var ranked := Sort(holders, Before);
    var entries: seq<Entry> := [];
    for k := 0 to |ranked|
      invariant |entries| == k && forall i :: 0 <= i < k ==> entries[i] == Shared(ranked[i], total)
    {
      entries := entries + [Shared(ranked[k], total)];
    }
    assert entries == Shares(ranked, total);
    report := Overview(threshold, total, entries, []);
    if threshold <= 0.0 {
      return;
    }
    var warnings := Warn(entries, threshold);
    report := report.(warnings := warnings);
  }

  lemma HoldersOfNone(rows: seq<Row>)
    ensures Holders(rows[..0]) == [] && RowSum([]) == 0
  {
  }

  method Warn(entries: seq<Entry>, threshold: real) returns (warnings: seq<Entry>)
    ensures warnings == Above(entries, threshold)
  {
    warnings := [];
    for k := 0 to |entries|
      invariant warnings == Above(entries[..k], threshold)
    {
      assert entries[..k + 1][..k] == entries[..k];
      if entries[k].share > threshold {
        warnings := warnings + [entries[k]];
      }
    }
    assert entries[..|entries|] == entries;
  }

  // ---- Sums survive the sort ----------------------------------------------------------------------

  lemma {:induction false} RowSumSplits(p: seq<Row>, q: seq<Row>)
    ensures RowSum(p + q) == RowSum(p) + RowSum(q)
  {
    if q == [] {
      assert p + q == p;
    } else {
      assert (p + q)[..|p + q| - 1] == p + q[..|q| - 1];
      RowSumSplits(p, q[..|q| - 1]);
    }
  }

  lemma RowSumOfOne(x: Row)
    ensures RowSum([x]) == x.1
  {
    assert [x][..0] == [];
  }

  lemma {:induction false} InsertAdds(x: Row, s: seq<Row>)
    ensures RowSum(Insert(x, s, Before)) == RowSum(s) + x.1
  {
    hide RowSum;
    RowSumOfOne(x);
    if s == [] {
      assert RowSum(s) == 0 by { HoldersOfNone(s); }
    } else if Before(x, s[0]) {
      RowSumSplits([x], s);
    } else {
      InsertAdds(x, s[1..]);
      RowSumSplits([s[0]], s[1..]);
      RowSumSplits([s[0]], Insert(x, s[1..], Before));
      assert s == [s[0]] + s[1..];
    }
  }

  lemma {:induction false} SortKeepsSum(s: seq<Row>)
    ensures RowSum(Sort(s, Before)) == RowSum(s)
  {
    if s != [] {
      SortKeepsSum(s[..|s| - 1]);
      InsertAdds(s[|s| - 1], Sort(s[..|s| - 1], Before));
    }
  }

  // ---- The properties of the report ---------------------------------------------------------------

  function SumOfShares(entries: seq<Entry>): real {
    if entries == [] then 0.0 else SumOfShares(entries[..|entries| - 1]) + entries[|entries| - 1].share
  }

  lemma {:induction false} HoldersArePositive(rows: seq<Row>)
    ensures forall i :: 0 <= i < |Holders(rows)| ==> Holders(rows)[i].1 > 0
    ensures RowSum(Holders(rows)) >= |Holders(rows)|
  {
    if rows != [] {
      HoldersArePositive(rows[..|rows| - 1]);
      HoldersNext(rows, |rows| - 1);
      assert rows[..|rows|] == rows;
    }
  }

  lemma {:induction false} SharesOfRows(ranked: seq<Row>, total: int)
    requires total > 0
    ensures SumOfShares(Shares(ranked, total)) == RowSum(ranked) as real / total as real * 100.0
  {
    if ranked != [] {
      var n := |ranked| - 1;
      SharesOfRows(ranked[..n], total);
      assert Shares(ranked, total)[..n] == Shares(ranked[..n], total);
      AddPercent(RowSum(ranked[..n]), ranked[n].1, total);
    }
  }

  lemma AddPercent(x: int, y: int, total: int)
    requires total > 0
    ensures x as real / total as real * 100.0 + y as real / total as real * 100.0 == (x + y) as real / total as real * 100.0
  {
    assert x as real / total as real + y as real / total as real == (x + y) as real / total as real;
  }

  lemma LargerShare(x: int, y: int, total: int)
    requires total > 0 && x >= y
    ensures x as real / total as real * 100.0 >= y as real / total as real * 100.0
    ensures y > 0 ==> y as real / total as real * 100.0 > 0.0
  {
    assert x as real / total as real >= y as real / total as real;
  }

  ghost predicate Descending(entries: seq<Entry>) {
    forall i, j :: 0 <= i < j < |entries| ==> entries[i].share >= entries[j].share
  }

  ghost predicate Positive(entries: seq<Entry>) {
    forall i :: 0 <= i < |entries| ==> entries[i].share > 0.0
  }

  lemma SharesDescend(ranked: seq<Row>, total: int)
    requires total > 0 && Sorted(ranked, Before) && forall i :: 0 <= i < |ranked| ==> ranked[i].1 > 0
    ensures Descending(Shares(ranked, total)) && Positive(Shares(ranked, total))
  {
    hide Shared;
    forall i, j | 0 <= i < j < |ranked| ensures Shared(ranked[i], total).share >= Shared(ranked[j], total).share {
      assert Before(ranked[i], ranked[j]);
      SharedInOrder(ranked[i], ranked[j], total);
    }
    forall i | 0 <= i < |ranked| ensures Shared(ranked[i], total).share > 0.0 {
      SharedInOrder(ranked[i], ranked[i], total);
    }
  }

  lemma RankedIsSorted(rows: seq<Row>)
    ensures Sorted(Ranked(rows), Before) && forall i :: 0 <= i < |Ranked(rows)| ==> Ranked(rows)[i].1 > 0
    ensures RowSum(Ranked(rows)) == RowSum(Holders(rows)) && |Ranked(rows)| == |Holders(rows)|
  {
    hide Before;
    BeforeIsTotal();
    SortSorts(Holders(rows), Before);
    HoldersArePositive(rows);
    SortKeepsSum(Holders(rows));
    hide Holders, RowSum;
    forall i | 0 <= i < |Ranked(rows)| ensures Ranked(rows)[i].1 > 0 {
      assert Ranked(rows)[i] in multiset(Holders(rows));
    }
  }

  lemma SharedInOrder(x: Row, y: Row, total: int)
    requires total > 0 && x.1 >= y.1
    ensures Shared(x, total).share >= Shared(y, total).share
    ensures y.1 > 0 ==> Shared(y, total).share > 0.0
  {
    LargerShare(x.1, y.1, total);
  }

  /** The first k entries, and no others, are above the threshold. */
  ghost predicate IsAboveUpTo(entries: seq<Entry>, threshold: real, k: nat) {
    k <= |entries| && forall i :: 0 <= i < |entries| ==> (i < k <==> entries[i].share > threshold)
  }

  lemma OneMoreAbove(entries: seq<Entry>, threshold: real, k: nat) returns (k': nat)
    requires entries != [] && Descending(entries) && IsAboveUpTo(entries[..|entries| - 1], threshold, k)
    requires Above(entries[..|entries| - 1], threshold) == entries[..|entries| - 1][..k]
    ensures IsAboveUpTo(entries, threshold, k') && Above(entries, threshold) == entries[..k']
  {
    var n := |entries| - 1;
    k' := if k == n && entries[n].share > threshold then n + 1 else k;
    assert entries[..n][..k] == entries[..k];
    assert entries == entries[..n] + [entries[n]];
    assert k < n ==> entries[n].share <= entries[k].share && entries[..n][k] == entries[k];
  }

  /** Descending shares are above a threshold up to some entry. */
  lemma {:induction false} AboveUpTo(entries: seq<Entry>, threshold: real) returns (k: nat)
    requires Descending(entries)
    ensures IsAboveUpTo(entries, threshold, k) && Above(entries, threshold) == entries[..k]
  {
    if entries == [] {
      k := 0;
    } else {
      var before := AboveUpTo(entries[..|entries| - 1], threshold);
      k := OneMoreAbove(entries, threshold, before);
    }
  }

  lemma AbovePrefix(entries: seq<Entry>, threshold: real)
    requires Descending(entries)
    ensures Above(entries, threshold) <= entries
    ensures forall i :: |Above(entries, threshold)| <= i < |entries| ==> entries[i].share <= threshold
    ensures forall i :: 0 <= i < |Above(entries, threshold)| ==> entries[i].share > threshold
  {
    hide Above, Descending;
    var k := AboveUpTo(entries, threshold);
  }

  lemma {:induction false} PrefixShares(entries: seq<Entry>, k: nat)
    requires k <= |entries| && Positive(entries)
    ensures SumOfShares(entries[..k]) <= SumOfShares(entries)
  {
    if k < |entries| {
      PrefixShares(entries[..|entries| - 1], k);
      assert entries[..|entries| - 1][..k] == entries[..k];
    } else {
      assert entries[..k] == entries;
    }
  }

  function Times(n: nat, x: real): real {
    n as real * x
  }

  lemma OneMore(n: nat, x: real)
    ensures Times(n + 1, x) == Times(n, x) + x && Times(0, x) == 0.0
  {
  }

  lemma {:induction false} EachAbove(entries: seq<Entry>, threshold: real)
    requires forall i :: 0 <= i < |entries| ==> entries[i].share > threshold
    ensures SumOfShares(entries) >= Times(|entries|, threshold)
    ensures entries != [] ==> SumOfShares(entries) > Times(|entries|, threshold)
  {
    hide Times;
    OneMore(if entries == [] then 0 else |entries| - 1, threshold);
    if entries != [] {
      EachAbove(entries[..|entries| - 1], threshold);
    }
  }

  lemma WholePercent(total: int)
    requires total > 0
    ensures total as real / total as real * 100.0 == 100.0
  {
  }

  lemma TotalIsPositiveIff(rows: seq<Row>)
    ensures RowSum(Holders(rows)) >= 0 && (RowSum(Holders(rows)) == 0 <==> Ranked(rows) == [])
  {
    HoldersArePositive(rows);
    RankedIsSorted(rows);
    hide Ranked;
    if Holders(rows) == [] {
      assert RowSum(Holders(rows)) == 0;
    }
  }

  lemma SharesAddUp(ranked: seq<Row>, total: int)
    requires total > 0 && RowSum(ranked) == total
    ensures SumOfShares(Shares(ranked, total)) == 100.0
  {
    SharesOfRows(ranked, total);
    WholePercent(total);
  }

  lemma AboveIsFew(entries: seq<Entry>, threshold: real)
    requires Descending(entries) && Positive(entries) && SumOfShares(entries) == 100.0
    ensures Times(|Above(entries, threshold)|, threshold) < 100.0
  {
    hide Times, Above;
    AbovePrefix(entries, threshold);
    var warned := Above(entries, threshold);
    assert warned == entries[..|warned|];
    forall i | 0 <= i < |warned| ensures warned[i].share > threshold {
      assert warned[i] == entries[i];
    }
    PrefixShares(entries, |warned|);
    hide SumOfShares;
    EachAbove(warned, threshold);
    OneMore(0, threshold);
  }

  /** Main result: a report is empty exactly when nobody holds a positive balance; otherwise its shares, largest first,
    * add up to 100. */
  lemma ReportAddsUp(rows: seq<Row>, threshold: real)
    ensures var r := Report(rows, threshold);
            && r.total >= 0 && (r.total == 0 <==> r.entries == []) && Descending(r.entries) && Positive(r.entries)
            && (r.total > 0 ==> SumOfShares(r.entries) == 100.0)
  {
    TotalIsPositiveIff(rows);
    var total := RowSum(Holders(rows));
    if total > 0 {
      RankedIsSorted(rows);
      SharesDescend(Ranked(rows), total);
      SharesAddUp(Ranked(rows), total);
    }
    hide RowSum, Holders, Ranked, Above, SumOfShares, Sorted;
  }

  /** The warnings are exactly the leading entries above the threshold, and fewer than 100 / threshold. */
  lemma WarningsLead(rows: seq<Row>, threshold: real)
    ensures var r := Report(rows, threshold);
            && r.warnings <= r.entries
            && (threshold > 0.0 ==>
                  && (forall i :: 0 <= i < |r.entries| ==> (r.entries[i].share > threshold <==> i < |r.warnings|))
                  && Times(|r.warnings|, threshold) < 100.0)
            && (threshold <= 0.0 ==> r.warnings == [])
  {
    ReportAddsUp(rows, threshold);
    var r := Report(rows, threshold);
    hide RowSum, Holders, Ranked, Shares, Above, SumOfShares, Descending, Positive, Times;
    OneMore(0, threshold);
    if r.total > 0 && threshold > 0.0 {
      AbovePrefix(r.entries, threshold);
      AboveIsFew(r.entries, threshold);
    }
  }

  lemma {:induction false} HoldersPermute(rows: seq<Row>)
    ensures forall x :: multiset(Holders(rows))[x] == if x.1 > 0 then multiset(rows)[x] else 0
  {
    if rows != [] {
      HoldersPermute(rows[..|rows| - 1]);
      assert rows == rows[..|rows| - 1] + [rows[|rows| - 1]];
    }
  }

  /** The report does not depend on the order of the rows. */
  lemma ReportIgnoresOrder(rows: seq<Row>, rows': seq<Row>, threshold: real)
    requires multiset(rows) == multiset(rows')
    ensures Report(rows, threshold) == Report(rows', threshold)
  {
    HoldersPermute(rows);
    HoldersPermute(rows');
    hide Holders, RowSum, Before, Sort;
    assert multiset(Holders(rows)) == multiset(Holders(rows'));
    BeforeIsTotal();
    SortsAgreeIff(Holders(rows), Holders(rows'), Before);
    SortKeepsSum(Holders(rows));
    SortKeepsSum(Holders(rows'));
    hide Above, Shares;
  }

  function Debts(rows: seq<Row>): int {
    if rows == [] then 0
    else
      var last := rows[|rows| - 1];
      Debts(rows[..|rows| - 1]) + if last.1 <= 0 then last.1 else 0
  }

  lemma {:induction false} HoldersAndDebts(rows: seq<Row>)
    ensures RowSum(rows) == RowSum(Holders(rows)) + Debts(rows)
  {
    if rows != [] {
      HoldersAndDebts(rows[..|rows| - 1]);
      HoldersNext(rows, |rows| - 1);
      assert rows[..|rows|] == rows;
    }
  }

  function AgentsOf(rows: seq<Row>): seq<Id> {
    seq(|rows|, i requires 0 <= i < |rows| => rows[i].0)
  }

  lemma {:induction false} RowSumIsSumOver(rows: seq<Row>, value: Id -> int)
    requires forall i :: 0 <= i < |rows| ==> rows[i].1 == value(rows[i].0)
    ensures RowSum(rows) == SumOver(AgentsOf(rows), value)
  {
    if rows != [] {
      assert AgentsOf(rows)[..|rows| - 1] == AgentsOf(rows[..|rows| - 1]);
      RowSumIsSumOver(rows[..|rows| - 1], value);
    }
  }

  /** The settlement total is the concentration total plus the balances that are not positive. */
  lemma SettlementIsConcentrationPlusDebts(ledger: seq<LedgerRow>, rows: seq<Row>, threshold: real)
    requires IsGrouping(rows, ledger)
    ensures Sum(ledger, DeltaOf) == Report(rows, threshold).total + Debts(rows)
  {
    var order := AgentsOf(rows);
    assert Distinct(order);
    forall i | 0 <= i < |ledger| && ledger[i].status == Confirmed ensures ledger[i].agent in order {
      assert ledger[i].agent in ConfirmedAgents(ledger);
      var k :| 0 <= k < |rows| && rows[k].0 == ledger[i].agent;
      assert order[k] == ledger[i].agent;
    }
    RowSumIsSumOver(rows, BalanceOf(ledger));
    BalancesAddUp(ledger, order);
    HoldersAndDebts(rows);
  }

  /** The entries' agents and tokens. */
  function RowsOf(entries: seq<Entry>): seq<Row> {
    seq(|entries|, i requires 0 <= i < |entries| => (entries[i].agent, entries[i].tokens))
  }

  lemma RankedAreHolders(rows: seq<Row>)
    ensures forall x :: multiset(Ranked(rows))[x] == if x.1 > 0 then multiset(rows)[x] else 0
    ensures forall i, j :: 0 <= i < j < |Ranked(rows)| ==>
              Ranked(rows)[i].1 > Ranked(rows)[j].1 || (Ranked(rows)[i].1 == Ranked(rows)[j].1 && Ranked(rows)[i].0 <= Ranked(rows)[j].0)
  {
    HoldersPermute(rows);
    BeforeIsTotal();
    SortSorts(Holders(rows), Before);
    assert multiset(Ranked(rows)) == multiset(Holders(rows));
    forall i, j | 0 <= i < j < |Ranked(rows)|
      ensures Ranked(rows)[i].1 > Ranked(rows)[j].1 || (Ranked(rows)[i].1 == Ranked(rows)[j].1 && Ranked(rows)[i].0 <= Ranked(rows)[j].0)
    {
      assert Before(Ranked(rows)[i], Ranked(rows)[j]);
    }
  }

  lemma SharesOfRanked(ranked: seq<Row>, total: int)
    ensures RowsOf(Shares(ranked, total)) == ranked
    ensures total > 0 ==> forall i :: 0 <= i < |ranked| ==> Shares(ranked, total)[i].share * total as real == ranked[i].1 as real * 100.0
  {
    if total > 0 {
      forall i | 0 <= i < |ranked| ensures Shares(ranked, total)[i].share * total as real == ranked[i].1 as real * 100.0 {
        PercentOfWhole(ranked[i].1, total);
      }
    }
  }

  lemma EntriesAreRanked(rows: seq<Row>, threshold: real)
    ensures var r := Report(rows, threshold);
            && RowsOf(r.entries) == Ranked(rows) && r.total == RowSum(Ranked(rows)) && r.threshold == threshold
            && forall i :: 0 <= i < |r.entries| ==> r.entries[i].share * r.total as real == Ranked(rows)[i].1 as real * 100.0
  {
    hide Holders, RowSum, Ranked, Above, Shares;
    TotalIsPositiveIff(rows);
    RankedIsSorted(rows);
    SharesOfRanked(Ranked(rows), RowSum(Holders(rows)));
  }

  /** Main result, entries: they are the rows with a positive balance, each once, by tokens descending and then by agent ascending;
    * the total is what they hold, and each share is its holder's percentage of it. */
  lemma EntriesAreHolders(rows: seq<Row>, threshold: real)
    ensures var r := Report(rows, threshold); var held := RowsOf(r.entries);
            && (forall x :: multiset(held)[x] == if x.1 > 0 then multiset(rows)[x] else 0)
            && (forall i, j :: 0 <= i < j < |held| ==> held[i].1 > held[j].1 || (held[i].1 == held[j].1 && held[i].0 <= held[j].0))
            && r.total == RowSum(held) && r.threshold == threshold
            && forall i :: 0 <= i < |r.entries| ==> r.entries[i].share * r.total as real == r.entries[i].tokens as real * 100.0
  {
    hide RowSum, Ranked, Report;
    EntriesAreRanked(rows, threshold);
    RankedAreHolders(rows);
    forall i | 0 <= i < |Report(rows, threshold).entries| ensures Ranked(rows)[i].1 == Report(rows, threshold).entries[i].tokens {
      assert RowsOf(Report(rows, threshold).entries)[i] == Ranked(rows)[i];
    }
  }

  lemma PercentOfWhole(part: int, whole: int)
    requires whole > 0
    ensures part as real / whole as real * 100.0 * whole as real == part as real * 100.0
  {
    assert part as real / whole as real * whole as real == part as real;
  }
}
