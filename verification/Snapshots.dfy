/** The per-agent snapshot taken at ACTIVE -> LOCKED (internal/tokens/snapshot.go). */
module Snapshots {
  import opened Common
  import opened Printing
  import opened Books
  import opened Sums
  import opened Engine
  import opened Settlement
  import RateLimit
  import History
  import Audit

  // ---- Everyone who ran or earned is a member -------------------------------------------------------

  ghost predicate Enrolled(b: Books) {
    && (forall k :: 0 <= k < |b.logs| ==> b.logs[k].agent in b.members)
    && (forall i :: 0 <= i < |b.ledger| ==> b.ledger[i].agent in b.members)
    && (forall d :: d in b.pending ==> b.pending[d] in b.members)
  }

  /** Steps that write none of the rows that name agents. */
  ghost predicate SameRows(b: Books, b': Books) {
    b'.logs == b.logs && b'.ledger == b.ledger && b'.members == b.members && forall d :: d in b'.pending ==> d in b.pending && b'.pending[d] == b.pending[d]
  }

  lemma SameRowsEnrolled(b: Books, b': Books)
    requires Enrolled(b) && SameRows(b, b')
    ensures Enrolled(b')
  {
  }

  lemma LoggingEnrols(b: Books, call: Call, result: LogResult, tokens: int, cost: int)
    requires Enrolled(b) && call.agent in b.members
    ensures Enrolled(AppendLog(b, call, result, tokens, cost)) && AppendLog(b, call, result, tokens, cost).members == b.members
  {
  }

  lemma BookkeepingSameRows(b: Books, reservation: Option<Id>, status: ReservationStatus, estimate: int, logId: Id)
    ensures SameRows(b, SetReservation(b, reservation, status))
    ensures SameRows(b, RecordSpend(b, estimate, reservation, logId))
  {
  }

  lemma RefusingEnrols(b: Books, call: Call, reservation: Option<Id>)
    requires Enrolled(b) && call.agent in b.members
    ensures Enrolled(SetReservation(b, reservation, Released))
    ensures Enrolled(LogRefusal(b, call))
    ensures Enrolled(LogRefusal(SetReservation(b, reservation, Released), call))
  {
    hide Enrolled, SetReservation, AppendLog;
    var released := SetReservation(b, reservation, Released);
    BookkeepingSameRows(b, reservation, Released, 0, 0);
    SameRowsEnrolled(b, released);
    LoggingEnrols(b, call, Refusal, 0, 0);
    LoggingEnrols(released, call, Refusal, 0, 0);
  }

  lemma ExecutingSameRows(b: Books, call: Call)
    requires Enrolled(b) && Execute(b, call).Some?
    ensures var (b', work) := Execute(b, call).value;
            SameRows(b, b') && (work.Claimed? ==> work.proposer in b'.members)
  {
    hide AgentOfLog, CostOfLog;
  }

  lemma ApplyingEnrols(b: Books, call: Call, work: Work, tokens: int, logId: Id, fault: Fault)
    requires Enrolled(b) && call.agent in b.members && (work.Claimed? ==> work.proposer in b.members)
    ensures Enrolled(Apply(b, call, work, tokens, logId, fault).0)
  {
    hide HasPlatform, Balance;
  }

  lemma CommittingEnrols(b: Books, call: Call, work: Work, effects: Effects, reservation: Option<Id>, fault: Fault)
    requires Enrolled(b) && call.agent in b.members && (work.Claimed? ==> work.proposer in b.members)
    ensures Enrolled(Commit(b, call, work, effects, reservation, fault).0)
  {
    hide Enrolled, Apply, SetReservation, RecordSpend, AppendLog, Estimate;
    var logged := AppendLog(b, call, Success, effects.tokens, effects.cost);
    LoggingEnrols(b, call, Success, effects.tokens, effects.cost);
    ApplyingEnrols(logged, call, work, effects.tokens, b.next, fault);
    var applied := Apply(logged, call, work, effects.tokens, b.next, fault).0;
    BookkeepingSameRows(applied, reservation, Released, Estimate(call), b.next);
    SameRowsEnrolled(applied, SetReservation(applied, reservation, Released));
    SameRowsEnrolled(applied, RecordSpend(applied, Estimate(call), reservation, b.next));
  }

  lemma PerformingEnrols(b: Books, call: Call, reservation: Option<Id>, fault: Fault)
    requires Enrolled(b) && call.agent in b.members
    ensures Enrolled(Perform(b, call, reservation, fault).0)
  {
    hide Enrolled, Commit, Execute, FinalEffects, SetReservation, LogRefusal;
    RefusingEnrols(b, call, reservation);
    if Execute(b, call).Some? {
      var (executed, work) := Execute(b, call).value;
      ExecutingSameRows(b, call);
      SameRowsEnrolled(b, executed);
      RefusingEnrols(executed, call, reservation);
      CommittingEnrols(executed, call, work, FinalEffects(executed, call, work), reservation, fault);
    }
  }

  lemma GatingSameRows(b: Books, call: Call, now: int, prune: bool)
    ensures SameRows(b, Gate(b, call, now, prune).0)
  {
    hide RateLimit.CheckAndIncrement;
  }

  lemma ReservingSameRows(b: Books, estimate: int)
    requires Reserve(b, estimate).Some?
    ensures SameRows(b, Reserve(b, estimate).value.0)
  {
  }

  lemma RunningEnrols(b: Books, call: Call, now: int, prune: bool, fault: Fault)
    requires Enrolled(b)
    ensures Enrolled(Run(b, call, now, prune, fault).0)
  {
    hide Enrolled, Perform, Gate, Reserve, Estimate, LogRefusal, Permitted;
    if IsActive(b, call.agent) {
      var gated := Gate(b, call, now, prune).0;
      GatingSameRows(b, call, now, prune);
      SameRowsEnrolled(b, gated);
      RefusingEnrols(gated, call, None);
      if Reserve(gated, Estimate(call)).Some? {
        var (reserved, reservation) := Reserve(gated, Estimate(call)).value;
        ReservingSameRows(gated, Estimate(call));
        SameRowsEnrolled(gated, reserved);
        PerformingEnrols(reserved, call, reservation, fault);
      }
    }
  }

  lemma AdministrationEnrols(b: Books, op: History.Op)
    requires Enrolled(b) && !op.RunTool?
    ensures Enrolled(History.Step(b, op))
  {
    hide HasPlatform, History.TierIsFull, RebuiltSpend;
  }

  lemma {:induction false} HistoryEnrols(b: Books, ops: seq<History.Op>)
    requires Enrolled(b)
    ensures Enrolled(History.Replay(b, ops))
  {
    hide Enrolled, Run;
    if ops != [] {
      var before, op := History.Replay(b, ops[..|ops| - 1]), ops[|ops| - 1];
      HistoryEnrols(b, ops[..|ops| - 1]);
      if op.RunTool? {
        RunningEnrols(before, op.call, op.now, op.prune, op.fault);
      } else {
        AdministrationEnrols(before, op);
      }
    }
  }

  // ---- The snapshot -------------------------------------------------------------------------------

  datatype Snapshot = Snapshot(covenant: string, agent: string, tokens: int, cost: int, snapped: string, hash: string)

  /** Names print agent ids; both name and time carry no separator. */
  type Names = Id -> string

  function SnapshotHash(sha: Audit.Hash, covenant: string, agent: string, tokens: int, cost: int, snapped: string): string {
    sha(Audit.Join([covenant, agent, Decimal(tokens), Decimal(cost), snapped]))
  }

  function VerifySnapshot(sha: Audit.Hash, s: Snapshot): bool {
    SnapshotHash(sha, s.covenant, s.agent, s.tokens, s.cost, s.snapped) == s.hash
  }

  function CostOfAgent(agent: Id): LogRow -> int {
    (row: LogRow) => if row.agent == agent then CostOf(row) else 0
  }

  function AgentCost(logs: seq<LogRow>): Id -> int {
    (agent: Id) => Total(logs, CostOfAgent(agent), {})
  }

  type Snapping = Id -> Snapshot

  /** The row of one member. */
  function Taken(sha: Audit.Hash, names: Names, covenant: string, snapped: string, b: Books): Snapping {
    (agent: Id) =>
      var tokens, cost := Balance(b.ledger, agent), AgentCost(b.logs)(agent);
      Snapshot(covenant, names(agent), tokens, cost, snapped, SnapshotHash(sha, covenant, names(agent), tokens, cost, snapped))
  }

  /** Rows with neither tokens nor cost are skipped. */
  function TakenAll(take: Snapping, order: seq<Id>): seq<Snapshot> {
    if order == [] then []
    else
      var s := take(order[|order| - 1]);
      var before := TakenAll(take, order[..|order| - 1]);
      if s.tokens == 0 && s.cost == 0 then before else before + [s]
  }

  lemma {:induction false} TakenPrefix(take: Snapping, order: seq<Id>, k: nat)
    requires k <= |order|
    ensures TakenAll(take, order[..k]) <= TakenAll(take, order)
  {
    if k < |order| {
      TakenPrefix(take, order[..|order| - 1], k);
      assert order[..|order| - 1][..k] == order[..k];
    } else {
      assert order[..k] == order;
    }
  }

  /** token_snapshots; `inserts` is how many insertions the database executes before it fails. */
  class SnapshotTable {
    var rows: seq<Snapshot>
    var inserts: nat

    constructor (inserts: nat)
      ensures rows == [] && this.inserts == inserts
    {
      rows, this.inserts := [], inserts;
    }

    /** CaptureSnapshot over the member rows of its query, in any order. There is no transaction: a failing insertion leaves
      * the rows written before it. */
    method CaptureSnapshot(sha: Audit.Hash, names: Names, covenant: string, snapped: string, b: Books, order: seq<Id>)
      returns (out: Option<seq<Snapshot>>)
      requires Enumerates(order, b.members.Keys)
      modifies this
      ensures var taken := TakenAll(Taken(sha, names, covenant, snapped, b), order);
              && (out.Some? <==> |taken| <= old(inserts)) && (out.Some? ==> out.value == taken)
              && rows == old(rows) + taken[..if |taken| <= old(inserts) then |taken| else old(inserts)]
    {
      var done: seq<Snapshot> := [];
      ghost var take := Taken(sha, names, covenant, snapped, b);
      for k := 0 to |order|
        invariant done == TakenAll(take, order[..k])
        invariant rows == old(rows) + done && |done| + inserts == old(inserts)
      {
        assert order[..k + 1][..k] == order[..k];
        var tokens, cost := Balance(b.ledger, order[k]), AgentCost(b.logs)(order[k]);
        if tokens == 0 && cost == 0 {
          continue;
        }
        TakenPrefix(take, order, k + 1);
        if inserts == 0 {
          return None;
        }
        inserts := inserts - 1;
        var s := Snapshot(covenant, names(order[k]), tokens, cost, snapped,
                          SnapshotHash(sha, covenant, names(order[k]), tokens, cost, snapped));
        done := done + [s];
        rows := rows + [s];
      }
      assert order[..|order|] == order;
      return Some(done);
    }
  }

  function TokensOf(snapshots: seq<Snapshot>): int {
    if snapshots == [] then 0 else TokensOf(snapshots[..|snapshots| - 1]) + snapshots[|snapshots| - 1].tokens
  }

  function CostsOf(snapshots: seq<Snapshot>): int {
    if snapshots == [] then 0 else CostsOf(snapshots[..|snapshots| - 1]) + snapshots[|snapshots| - 1].cost
  }

  lemma SnapshotAdded(snapshots: seq<Snapshot>, s: Snapshot)
    ensures TokensOf(snapshots + [s]) == TokensOf(snapshots) + s.tokens
    ensures CostsOf(snapshots + [s]) == CostsOf(snapshots) + s.cost
  {
    assert (snapshots + [s])[..|snapshots|] == snapshots;
  }

  /** Skipped rows do not change the sums. */
  lemma {:induction false} SkippedRowsDoNotMatter(take: Snapping, order: seq<Id>, tokens: Id -> int, cost: Id -> int)
    requires forall a :: take(a).tokens == tokens(a) && take(a).cost == cost(a)
    ensures TokensOf(TakenAll(take, order)) == SumOver(order, tokens) && CostsOf(TakenAll(take, order)) == SumOver(order, cost)
  {
    if order != [] {
      var n := |order| - 1;
      SkippedRowsDoNotMatter(take, order[..n], tokens, cost);
      SnapshotAdded(TakenAll(take, order[..n]), take(order[n]));
    }
  }

  /** However the members are listed, their logged costs add up to the cost of all successful rows. */
  lemma {:induction false} CostsAddUp(logs: seq<LogRow>, order: seq<Id>)
    requires Distinct(order) && forall k :: 0 <= k < |logs| ==> logs[k].agent in order
    ensures SumOver(order, AgentCost(logs)) == Total(logs, CostOf, {})
  {
    if logs == [] {
      SumOfNothing(order, AgentCost(logs));
    } else {
      var n := |logs| - 1;
      var last := logs[n];
      CostsAddUp(logs[..n], order);
      SumOfSums(order, AgentCost(logs), AgentCost(logs[..n]), Only(last.agent, CostOf(last)));
      SumOfOnly(order, last.agent, CostOf(last));
    }
  }

  /** Main result: in every state reachable from one where all agents are members, the snapshot's tokens add up to the
    * confirmed deltas of the ledger, and its costs to the rebuilt spend plus the costs of the reversed rows. */
  lemma SnapshotAgreesWithLedger(sha: Audit.Hash, names: Names, covenant: string, snapped: string, b0: Books,
                                 ops: seq<History.Op>, order: seq<Id>)
    requires Enrolled(b0)
    requires Enumerates(order, History.Replay(b0, ops).members.Keys)
    ensures var b := History.Replay(b0, ops); var out := TakenAll(Taken(sha, names, covenant, snapped, b), order);
            && TokensOf(out) == Sum(b.ledger, DeltaOf)
            && CostsOf(out) == RebuiltSpend(b.logs, b.ledger) + TotalWithin(b.logs, CostOf, ReversedIds(b.ledger))
  {
    var b := History.Replay(b0, ops);
    HistoryEnrols(b0, ops);
    hide History.Replay, ReversedIds;
    SkippedRowsDoNotMatter(Taken(sha, names, covenant, snapped, b), order, BalanceOf(b.ledger), AgentCost(b.logs));
    BalancesAddUp(b.ledger, order);
    CostsAddUp(b.logs, order);
    TotalSplits(b.logs, CostOf, {}, ReversedIds(b.ledger));
    assert {} + ReversedIds(b.ledger) == ReversedIds(b.ledger);
  }

  /** A member's row is skipped only when both its columns are zero. */
  lemma {:induction false} EachMemberIsTaken(take: Snapping, order: seq<Id>, agent: Id)
    requires agent in order && (take(agent).tokens != 0 || take(agent).cost != 0)
    ensures take(agent) in TakenAll(take, order)
  {
    var n := |order| - 1;
    if order[n] != agent {
      assert agent in order[..n];
      EachMemberIsTaken(take, order[..n], agent);
    }
  }

  predicate Printable(s: Snapshot) {
    SEPARATOR !in s.covenant && SEPARATOR !in s.agent && SEPARATOR !in s.snapped
  }

  /** A stored row that keeps its hash verifies exactly when no hashed field was changed. */
  lemma TamperingIsDetected(sha: Audit.Hash, s: Snapshot, t: Snapshot)
    requires Audit.Injective(sha) && Printable(s) && Printable(t)
    requires VerifySnapshot(sha, s) && t.hash == s.hash
    ensures VerifySnapshot(sha, t) <==> t == s
  {
    if VerifySnapshot(sha, t) {
      var p := [s.covenant, s.agent, Decimal(s.tokens), Decimal(s.cost), s.snapped];
      var q := [t.covenant, t.agent, Decimal(t.tokens), Decimal(t.cost), t.snapped];
      DecimalHasNoSeparator(s.tokens);
      DecimalHasNoSeparator(s.cost);
      DecimalHasNoSeparator(t.tokens);
      DecimalHasNoSeparator(t.cost);
      Audit.JoinInjective(p, q);
      assert p[0] == q[0] && p[1] == q[1] && p[2] == q[2] && p[3] == q[3] && p[4] == q[4];
      DecimalInjective(s.tokens, t.tokens);
      DecimalInjective(s.cost, t.cost);
    }
  }

  /** Whose row it is: this covenant's and this agent's, the sum of its confirmed deltas, and the sum of its successful costs. */
  predicate IsRowOf(s: Snapshot, names: Names, covenant: string, snapped: string, b: Books, agent: Id) {
    && s.covenant == covenant && s.agent == names(agent) && s.snapped == snapped
    && s.tokens == Sum(b.ledger, (row: LedgerRow) => if row.agent == agent then row.delta else 0)
    && s.cost == Total(b.logs, (row: LogRow) => if row.agent == agent && row.result == Success then row.cost else 0, {})
  }

  lemma {:induction false} SameSums(ledger: seq<LedgerRow>, f: LedgerRow -> int, g: LedgerRow -> int)
    requires forall row :: f(row) == g(row)
    ensures Sum(ledger, f) == Sum(ledger, g)
  {
    if ledger != [] {
      SameSums(ledger[..|ledger| - 1], f, g);
    }
  }

  lemma {:induction false} SameTotals(logs: seq<LogRow>, f: LogRow -> int, g: LogRow -> int)
    requires forall row :: f(row) == g(row)
    ensures Total(logs, f, {}) == Total(logs, g, {})
  {
    if logs != [] {
      SameTotals(logs[..|logs| - 1], f, g);
    }
  }

  /** Each row's columns are its covenant's and its member's own, and it verifies. */
  lemma RowsAreTheirMembers(sha: Audit.Hash, names: Names, covenant: string, snapped: string, b: Books, agent: Id)
    ensures var s := Taken(sha, names, covenant, snapped, b)(agent);
            IsRowOf(s, names, covenant, snapped, b, agent) && VerifySnapshot(sha, s)
  {
    SameSums(b.ledger, DeltaOfAgent(agent), (row: LedgerRow) => if row.agent == agent then row.delta else 0);
    SameTotals(b.logs, CostOfAgent(agent), (row: LogRow) => if row.agent == agent && row.result == Success then row.cost else 0);
    hide Sum, Total, SnapshotHash;
  }

  /** Main result, rows: the snapshot holds, for each member with tokens or cost, one row of its own, in the order of the query, and
    * no other. */
  lemma {:induction false} RowsAreMembers(take: Snapping, order: seq<Id>) returns (members: seq<Id>)
    ensures |members| == |TakenAll(take, order)| && forall k :: 0 <= k < |members| ==> TakenAll(take, order)[k] == take(members[k])
    ensures forall k :: 0 <= k < |members| ==> members[k] in order
    ensures forall agent :: agent in order ==> (agent in members <==> take(agent).tokens != 0 || take(agent).cost != 0)
    ensures Distinct(order) ==> Distinct(members)
  {
    if order == [] {
      members := [];
    } else {
      var n := |order| - 1;
      var before := RowsAreMembers(take, order[..n]);
      var s := take(order[n]);
      members := if s.tokens == 0 && s.cost == 0 then before else before + [order[n]];
    }
  }

  /** What is hashed: covenant, agent, tokens, cost and time, in this order. */
  lemma HashedText(sha: Audit.Hash)
    ensures SnapshotHash(sha, "covenant", "agent", 3, 0 - 4, "time") == sha("covenant|agent|3|-4|time")
  {
    assert Decimal(3) == "3" && Decimal(0 - 4) == "-4";
    Audit.JoinsFive("covenant", "agent", "3", "-4", "time");
    assert "covenant|agent|3|-4|time" == "covenant" + "|" + "agent" + "|" + "3" + "|" + "-4" + "|" + "time";
  }
}
