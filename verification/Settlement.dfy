/** Totals over the ledger: TotalByAgent, the settlement report and the concentration report
  * (internal/tokens/tokens.go, internal/settlement/settlement.go, internal/ratelimit/concentration.go).
  * Rows and map entries come in any order. */
module Settlement {
  import opened Common
  import opened Books
  import opened Ordering

  // ---- Totals by agent --------------------------------------------------------------------------

  predicate HasConfirmed(ledger: seq<LedgerRow>, agent: Id) {
    exists i :: 0 <= i < |ledger| && ledger[i].agent == agent && ledger[i].status == Confirmed
  }

  function ConfirmedAgents(ledger: seq<LedgerRow>): set<Id> {
    set i | 0 <= i < |ledger| && ledger[i].status == Confirmed :: ledger[i].agent
  }

  /** Every agent with a confirmed row and its balance. */
  function Totals(ledger: seq<LedgerRow>): map<Id, int> {
    map agent | agent in ConfirmedAgents(ledger) :: Balance(ledger, agent)
  }

  ghost predicate Distinct<T>(s: seq<T>) {
    forall i, j :: 0 <= i < j < |s| ==> s[i] != s[j]
  }

  /** Each key once, in any order. */
  ghost predicate Enumerates(order: seq<Id>, keys: set<Id>) {
    Distinct(order) && forall a :: a in keys <==> a in order
  }

  /** The rows of a query grouped by agent. */
  ghost predicate IsGrouping(rows: seq<(Id, int)>, ledger: seq<LedgerRow>) {
    && (forall i, j :: 0 <= i < j < |rows| ==> rows[i].0 != rows[j].0)
    && (forall i :: 0 <= i < |rows| ==> rows[i].0 in ConfirmedAgents(ledger) && rows[i].1 == Balance(ledger, rows[i].0))
    && (forall a :: a in ConfirmedAgents(ledger) ==> exists i :: 0 <= i < |rows| && rows[i].0 == a)
  }

  /** TotalByAgent over the rows of its query. */
  method TotalByAgent(ghost ledger: seq<LedgerRow>, rows: seq<(Id, int)>) returns (totals: map<Id, int>)
    requires IsGrouping(rows, ledger)
    ensures totals == Totals(ledger)
  {
    totals := map[];
    for k := 0 to |rows|
      invariant forall a :: a in totals <==> exists i :: 0 <= i < k && rows[i].0 == a
      invariant forall a :: a in totals ==> a in ConfirmedAgents(ledger) && totals[a] == Balance(ledger, a)
    {
      totals := totals[rows[k].0 := rows[k].1];
    }
  }

  function SumOver(order: seq<Id>, value: Id -> int): int {
    if order == [] then 0 else SumOver(order[..|order| - 1], value) + value(order[|order| - 1])
  }

  function BalanceOf(ledger: seq<LedgerRow>): Id -> int {
    (agent: Id) => Balance(ledger, agent)
  }

  function Only(agent: Id, delta: int): Id -> int {
    (a: Id) => if a == agent then delta else 0
  }

  lemma {:induction false} SumOfSums(order: seq<Id>, f: Id -> int, g: Id -> int, h: Id -> int)
    requires forall a :: f(a) == g(a) + h(a)
    ensures SumOver(order, f) == SumOver(order, g) + SumOver(order, h)
  {
    if order != [] {
      SumOfSums(order[..|order| - 1], f, g, h);
    }
  }

  lemma {:induction false} SumOfOnly(order: seq<Id>, agent: Id, delta: int)
    requires Distinct(order)
    ensures SumOver(order, Only(agent, delta)) == if agent in order then delta else 0
  {
    if order != [] {
      var n := |order| - 1;
      assert order == order[..n] + [order[n]];
      SumOfOnly(order[..n], agent, delta);
    }
  }

  lemma {:induction false} SumOfNothing(order: seq<Id>, f: Id -> int)
    requires forall a :: f(a) == 0
    ensures SumOver(order, f) == 0
  {
    if order != [] {
      SumOfNothing(order[..|order| - 1], f);
    }
  }

  /** However the agents are listed, their balances add up to the confirmed deltas. */
  lemma {:induction false} BalancesAddUp(ledger: seq<LedgerRow>, order: seq<Id>)
    requires Distinct(order) && forall i :: 0 <= i < |ledger| && ledger[i].status == Confirmed ==> ledger[i].agent in order
    ensures SumOver(order, BalanceOf(ledger)) == Sum(ledger, DeltaOf)
  {
    if ledger == [] {
      SumOfNothing(order, BalanceOf(ledger));
    } else {
      var n := |ledger| - 1;
      var last := ledger[n];
      BalancesAddUp(ledger[..n], order);
      var added := Only(last.agent, if last.status == Confirmed then last.delta else 0);
      SumOfSums(order, BalanceOf(ledger), BalanceOf(ledger[..n]), added);
      SumOfOnly(order, last.agent, if last.status == Confirmed then last.delta else 0);
    }
  }

  function At(m: map<Id, int>): Id -> int {
    (a: Id) => if a in m then m[a] else 0
  }

  lemma {:induction false} SumsAgree(order: seq<Id>, f: Id -> int, g: Id -> int)
    requires forall i :: 0 <= i < |order| ==> f(order[i]) == g(order[i])
    ensures SumOver(order, f) == SumOver(order, g)
  {
    if order != [] {
      SumsAgree(order[..|order| - 1], f, g);
    }
  }

  /** The sum of TotalByAgent, in any order. */
  lemma TotalsAddUp(ledger: seq<LedgerRow>, order: seq<Id>)
    requires Enumerates(order, ConfirmedAgents(ledger))
    ensures SumOver(order, At(Totals(ledger))) == Sum(ledger, DeltaOf)
  {
    SumsAgree(order, At(Totals(ledger)), BalanceOf(ledger));
    BalancesAddUp(ledger, order);
  }

  // ---- The settlement report ----------------------------------------------------------------------

  datatype Distribution = Distribution(agent: Id, tokens: int, share: real, finalPct: real)

  datatype Report = Report(total: int, distributions: seq<Distribution>)

  function ShareOf(tokens: int, total: int): real {
    if total > 0 then tokens as real / total as real else 0.0
  }

  function Distributed(agent: Id, balances: map<Id, int>, total: int, pool: real): Distribution {
    var tokens := At(balances)(agent);
    Distribution(agent, tokens, ShareOf(tokens, total), ShareOf(tokens, total) * pool)
  }

  /** The figures of a report; each of the two loops ranges over the map in an order of its own. */
  method Compute(balances: map<Id, int>, first: seq<Id>, second: seq<Id>, pool: real) returns (r: Report)
    requires Enumerates(first, balances.Keys) && Enumerates(second, balances.Keys)
    ensures r.total == SumOver(second, At(balances)) && |r.distributions| == |second|
    ensures forall i :: 0 <= i < |second| ==> r.distributions[i] == Distributed(second[i], balances, r.total, pool)
  {
    var total := TotalOf(balances, first);
    var dists: seq<Distribution> := [];
    hide SumOver, Distinct, ShareOf;
    for k := 0 to |second|
      invariant |dists| == k
      invariant forall i :: 0 <= i < k ==> dists[i] == Distributed(second[i], balances, total, pool)
    {
      var balance := balances[second[k]];
      var share := PoolShare(balance, total);
      dists := dists + [Distribution(second[k], balance, share, share * pool)];
    }
    SumsPermute(first, second, At(balances));
    return Report(total, dists);
  }

  /** settlement_outputs. */
  class Outputs {
    var rows: seq<Report>

    constructor ()
      ensures rows == []
    {
      rows := [];
    }

    /** Generate: refused outside LOCKED and ACTIVE; nothing is returned when the row cannot be saved. */
    method Generate(state: Lifecycle, balances: map<Id, int>, first: seq<Id>, second: seq<Id>, pool: real, saves: bool)
      returns (r: Option<Report>)
      requires Enumerates(first, balances.Keys) && Enumerates(second, balances.Keys)
      modifies this
      ensures r.Some? <==> (state == LOCKED || state == ACTIVE) && saves
      ensures rows == if r.Some? then old(rows) + [r.value] else old(rows)
      ensures r.Some? ==>
                && r.value.total == SumOver(second, At(balances)) && |r.value.distributions| == |second|
                && forall i :: 0 <= i < |second| ==>
                     r.value.distributions[i] == Distributed(second[i], balances, r.value.total, pool)
    {
      if state != LOCKED && state != ACTIVE {
        return None;
      }
      var report := Compute(balances, first, second, pool);
      if !saves {
        return None;
      }
      rows := rows + [report];
      return Some(report);
    }
  }

  method TotalOf(balances: map<Id, int>, order: seq<Id>) returns (total: int)
    requires forall i :: 0 <= i < |order| ==> order[i] in balances
    ensures total == SumOver(order, At(balances))
  {
    total := 0;
    for k := 0 to |order|
      invariant total == SumOver(order[..k], At(balances))
    {
      assert order[..k + 1][..k] == order[..k];
      total := total + balances[order[k]];
    }
    assert order[..|order|] == order;
  }

  method PoolShare(balance: int, total: int) returns (share: real)
    ensures share == ShareOf(balance, total)
  {
    share := 0.0;
    if total > 0 {
      share := balance as real / total as real;
    }
  }

  lemma SumSplits(p: seq<Id>, q: seq<Id>, value: Id -> int)
    ensures SumOver(p + q, value) == SumOver(p, value) + SumOver(q, value)
  {
    if q == [] {
      assert p + q == p;
    } else {
      assert (p + q)[..|p + q| - 1] == p + q[..|q| - 1];
      SumSplits(p, q[..|q| - 1], value);
    }
  }

  lemma SumTakesOut(p: seq<Id>, x: Id, q: seq<Id>, value: Id -> int)
    ensures SumOver(p + [x] + q, value) == SumOver(p + q, value) + value(x)
  {
    SumSplits(p + [x], q, value);
    SumSplits(p, [x], value);
    SumSplits(p, q, value);
    assert SumOver([x], value) == value(x) by { assert [x][..0] == []; }
  }

  lemma SomethingIn(t: seq<Id>)
    ensures t == [] || exists a :: a in t
  {
    if t != [] {
      assert t[0] in t;
    }
  }

  lemma SameWithout(s: seq<Id>, t: seq<Id>, k: nat)
    requires s != [] && k < |t| && t[k] == s[|s| - 1] && Distinct(s) && Distinct(t) && forall a :: a in s <==> a in t
    ensures var rest := t[..k] + t[k + 1..]; Distinct(rest) && forall a :: a in s[..|s| - 1] <==> a in rest
  {
    var n := |s| - 1;
    var rest := t[..k] + t[k + 1..];
    assert s == s[..n] + [s[n]] && t == t[..k] + [t[k]] + t[k + 1..];
    forall a ensures a in s[..n] <==> a in rest {
      assert a in s <==> a in s[..n] || a == s[n];
      assert a in t <==> a in rest || a == s[n];
    }
  }

  /** A sum does not depend on the order of its terms. */
  lemma {:induction false} SumsPermute(s: seq<Id>, t: seq<Id>, value: Id -> int)
    requires Distinct(s) && Distinct(t) && forall a :: a in s <==> a in t
    ensures SumOver(s, value) == SumOver(t, value)
  {
    if s == [] {
      SomethingIn(t);
    } else {
      var n := |s| - 1;
      assert s[n] in t;
      var k :| 0 <= k < |t| && t[k] == s[n];
      SameWithout(s, t, k);
      hide Distinct;
      SumsPermute(s[..n], t[..k] + t[k + 1..], value);
      assert t == t[..k] + [s[n]] + t[k + 1..];
      SumTakesOut(t[..k], s[n], t[k + 1..], value);
    }
  }

  function SumShares(dists: seq<Distribution>): real {
    if dists == [] then 0.0 else SumShares(dists[..|dists| - 1]) + dists[|dists| - 1].share
  }

  function SumFinal(dists: seq<Distribution>): real {
    if dists == [] then 0.0 else SumFinal(dists[..|dists| - 1]) + dists[|dists| - 1].finalPct
  }

  lemma AddShares(x: int, y: int, total: int, pool: real)
    requires total > 0
    ensures ShareOf(x, total) + ShareOf(y, total) == ShareOf(x + y, total)
    ensures ShareOf(x, total) * pool + ShareOf(y, total) * pool == ShareOf(x + y, total) * pool
  {
    assert ShareOf(x, total) + ShareOf(y, total) == ShareOf(x + y, total);
  }

  lemma {:induction false} SharesOfPart(order: seq<Id>, balances: map<Id, int>, total: int, pool: real, dists: seq<Distribution>)
    requires total > 0 && |dists| == |order|
    requires forall i :: 0 <= i < |order| ==> dists[i] == Distributed(order[i], balances, total, pool)
    ensures SumShares(dists) == ShareOf(SumOver(order, At(balances)), total)
    ensures SumFinal(dists) == ShareOf(SumOver(order, At(balances)), total) * pool
  {
    if order != [] {
      var n := |order| - 1;
      SharesOfPart(order[..n], balances, total, pool, dists[..n]);
      AddShares(SumOver(order[..n], At(balances)), At(balances)(order[n]), total, pool);
    }
  }

  /** Main result, settlement: whatever the map orders, the report's total is the confirmed deltas of the ledger, and for
    * a positive total the shares add up to 1 and the final shares to the contributor pool. */
  lemma SettlementSharesOut(ledger: seq<LedgerRow>, order: seq<Id>, pool: real, r: Report)
    requires Enumerates(order, ConfirmedAgents(ledger))
    requires r.total == SumOver(order, At(Totals(ledger))) && |r.distributions| == |order|
    requires forall i :: 0 <= i < |order| ==> r.distributions[i] == Distributed(order[i], Totals(ledger), r.total, pool)
    ensures r.total == Sum(ledger, DeltaOf)
    ensures r.total > 0 ==> SumShares(r.distributions) == 1.0 && SumFinal(r.distributions) == pool
  {
    TotalsAddUp(ledger, order);
    hide ShareOf, Totals, SumOver, At;
    if r.total > 0 {
      SharesOfPart(order, Totals(ledger), r.total, pool, r.distributions);
      WholeShare(r.total, pool);
    }
  }

  lemma WholeShare(total: int, pool: real)
    requires total > 0
    ensures ShareOf(total, total) == 1.0 && ShareOf(total, total) * pool == pool
  {
    assert ShareOf(total, total) == 1.0;
  }

  /** Main result, distributions: each agent with confirmed rows has one entry with its own balance, a share that is its part of the
    * total where that is positive and 0 otherwise, and that share of the contributor pool. */
  lemma EachIsPaidItsBalance(ledger: seq<LedgerRow>, order: seq<Id>, pool: real, r: Report, i: nat)
    requires Enumerates(order, ConfirmedAgents(ledger)) && i < |order|
    requires |r.distributions| == |order| && r.distributions[i] == Distributed(order[i], Totals(ledger), r.total, pool)
    ensures var d := r.distributions[i];
            && d.agent == order[i] && d.tokens == Balance(ledger, order[i])
            && (if r.total > 0 then d.share * r.total as real == d.tokens as real else d.share == 0.0)
            && d.finalPct == d.share * pool
  {
    assert order[i] in ConfirmedAgents(ledger);
    hide Balance;
    if r.total > 0 {
      PartOfWhole(Balance(ledger, order[i]), r.total);
    }
  }

  lemma PartOfWhole(part: int, whole: int)
    requires whole > 0
    ensures ShareOf(part, whole) * whole as real == part as real
  {
  }
}
