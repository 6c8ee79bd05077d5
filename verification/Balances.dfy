/** The running balance stored in each ledger row. */
module Balances {
  import opened Common
  import opened Books
  import opened Engine
  import opened History
  import RateLimit

  /** Agent ids were all drawn from the counter. */
  ghost predicate AgentsKnown(b: Books) {
    && (forall a :: a in b.members ==> a < b.next)
    && (forall d :: d in b.pending ==> b.pending[d] < b.next)
    && (forall i :: 0 <= i < |b.ledger| ==> b.ledger[i].agent < b.next)
  }

  ghost predicate Appended(ledger: seq<LedgerRow>, ledger': seq<LedgerRow>) {
    && |ledger'| == |ledger| + 1 && ledger'[..|ledger|] == ledger
    && var row := ledger'[|ledger|];
       row.status == Confirmed && row.balanceAfter == Balance(ledger, row.agent) + row.delta
  }

  /** What one operation may do to the ledger. */
  ghost predicate LedgerStep(ledger: seq<LedgerRow>, ledger': seq<LedgerRow>) {
    ledger' == ledger || Appended(ledger, ledger') || exists target :: ledger' == Reverse(ledger, target)
  }

  lemma {:induction false} StrangersHaveNothing(ledger: seq<LedgerRow>, agent: Id)
    requires forall i :: 0 <= i < |ledger| ==> ledger[i].agent != agent
    ensures Balance(ledger, agent) == 0
  {
    if ledger != [] {
      StrangersHaveNothing(ledger[..|ledger| - 1], agent);
    }
  }

  ghost predicate WorkKnown(b: Books, work: Work) {
    work.Claimed? ==> work.proposer < b.next
  }

  lemma ApplyStepsLedger(b: Books, call: Call, work: Work, tokens: int, logId: Id, fault: Fault)
    requires AgentsKnown(b) && WorkKnown(b, work) && call.agent < b.next
    ensures var b' := Apply(b, call, work, tokens, logId, fault).0;
            AgentsKnown(b') && LedgerStep(b.ledger, b'.ledger)
  {
    hide HasPlatform, Balance;
    var b' := Apply(b, call, work, tokens, logId, fault).0;
    if fault != ApplyFails && work.ToApprove? {
      StrangersHaveNothing(b.ledger, b.next);
    }
  }

  /** The steps that write no agent and no ledger row. */
  ghost predicate SameAgents(b: Books, b': Books) {
    && b'.ledger == b.ledger && b'.next >= b.next && b'.members.Keys == b.members.Keys
    && forall d :: d in b'.pending ==> d in b.pending && b'.pending[d] == b.pending[d]
  }

  lemma SameAgentsKnown(b: Books, b': Books)
    requires SameAgents(b, b')
    ensures AgentsKnown(b) ==> AgentsKnown(b')
    ensures LedgerStep(b.ledger, b'.ledger)
  {
  }

  lemma BookkeepingKeepsAgents(b: Books, call: Call, reservation: Option<Id>, status: ReservationStatus, logId: Id, tokens: int, cost: int)
    ensures SameAgents(b, SetReservation(b, reservation, status))
    ensures SameAgents(b, RecordSpend(b, Estimate(call), reservation, logId))
    ensures SameAgents(b, AppendLog(b, call, Success, tokens, cost))
    ensures SameAgents(b, LogRefusal(b, call))
  {
    hide Estimate;
    LoggingKeepsAgents(b, call, Success, tokens, cost);
    LoggingKeepsAgents(b, call, Refusal, 0, 0);
    ReservingKeepsAgents(b, reservation, status);
    var charged := b.(counter := Charge(b.counter, Estimate(call)));
    ReservingKeepsAgents(charged, reservation, Settled(logId));
    hide AppendLog, SetReservation;
  }

  lemma LoggingKeepsAgents(b: Books, call: Call, result: LogResult, tokens: int, cost: int)
    ensures SameAgents(b, AppendLog(b, call, result, tokens, cost))
  {
  }

  lemma ReservingKeepsAgents(b: Books, reservation: Option<Id>, status: ReservationStatus)
    ensures SameAgents(b, SetReservation(b, reservation, status))
  {
  }

  lemma ExecuteKeepsAgents(b: Books, call: Call)
    requires AgentsKnown(b) && Execute(b, call).Some?
    ensures var (b', work) := Execute(b, call).value;
            SameAgents(b, b') && WorkKnown(b', work)
  {
    hide AgentOfLog, CostOfLog;
  }

  lemma CommitStepsLedger(b: Books, call: Call, work: Work, effects: Effects, reservation: Option<Id>, fault: Fault)
    requires AgentsKnown(b) && WorkKnown(b, work) && call.agent < b.next
    ensures var b' := Commit(b, call, work, effects, reservation, fault).0;
            AgentsKnown(b') && LedgerStep(b.ledger, b'.ledger)
  {
    hide Apply, AgentsKnown, LedgerStep, SetReservation, RecordSpend, Estimate, AppendLog, LogRefusal;
    var logged := AppendLog(b, call, Success, effects.tokens, effects.cost);
    BookkeepingKeepsAgents(b, call, reservation, Released, b.next, effects.tokens, effects.cost);
    SameAgentsKnown(b, logged);
    ApplyStepsLedger(logged, call, work, effects.tokens, b.next, fault);
    var (applied, ok) := Apply(logged, call, work, effects.tokens, b.next, fault);
    BookkeepingKeepsAgents(applied, call, reservation, Released, b.next, 0, 0);
    SameAgentsKnown(applied, SetReservation(applied, reservation, Released));
    SameAgentsKnown(applied, RecordSpend(applied, Estimate(call), reservation, b.next));
  }

  lemma PerformStepsLedger(b: Books, call: Call, reservation: Option<Id>, fault: Fault)
    requires AgentsKnown(b) && call.agent < b.next
    ensures var b' := Perform(b, call, reservation, fault).0;
            AgentsKnown(b') && LedgerStep(b.ledger, b'.ledger)
  {
    hide Commit, AgentsKnown, LedgerStep, FinalEffects, Execute, SetReservation, LogRefusal, WorkKnown;
    var released := SetReservation(b, reservation, Released);
    BookkeepingKeepsAgents(b, call, reservation, Released, 0, 0, 0);
    BookkeepingKeepsAgents(released, call, reservation, Released, 0, 0, 0);
    SameAgentsKnown(b, LogRefusal(released, call));
    if Execute(b, call).Some? {
      var (executed, work) := Execute(b, call).value;
      ExecuteKeepsAgents(b, call);
      var undone := SetReservation(executed, reservation, Released);
      BookkeepingKeepsAgents(executed, call, reservation, Released, 0, 0, 0);
      BookkeepingKeepsAgents(undone, call, reservation, Released, 0, 0, 0);
      SameAgentsKnown(b, executed);
      SameAgentsKnown(b, undone);
      SameAgentsKnown(b, LogRefusal(undone, call));
      CommitStepsLedger(executed, call, work, FinalEffects(executed, call, work), reservation, fault);
    }
  }

  lemma GatesKeepAgents(b: Books, call: Call, now: int, prune: bool, gated: Books)
    requires gated == Gate(b, call, now, prune).0
    ensures SameAgents(b, gated) && SameAgents(b, LogRefusal(gated, call))
    ensures Reserve(gated, Estimate(call)).Some? ==> SameAgents(b, Reserve(gated, Estimate(call)).value.0)
  {
    assert b.ledger == gated.ledger && b.members == gated.members && b.pending == gated.pending && b.next == gated.next by {
      hide RateLimit.CheckAndIncrement;
    }
    hide Gate, Estimate;
    LoggingKeepsAgents(gated, call, Refusal, 0, 0);
    hide AppendLog;
  }

  lemma RunStepsLedger(b: Books, call: Call, now: int, prune: bool, fault: Fault)
    requires AgentsKnown(b)
    ensures var b' := Run(b, call, now, prune, fault).0;
            AgentsKnown(b') && LedgerStep(b.ledger, b'.ledger)
  {
    assert IsActive(b, call.agent) ==> call.agent < b.next;
    hide Perform, AgentsKnown, LedgerStep, Gate, Reserve, Estimate, LogRefusal, Permitted, IsActive;
    var (gated, ok) := Gate(b, call, now, prune);
    GatesKeepAgents(b, call, now, prune, gated);
    SameAgentsKnown(b, b);
    SameAgentsKnown(b, gated);
    SameAgentsKnown(b, LogRefusal(gated, call));
    if IsActive(b, call.agent) && Reserve(gated, Estimate(call)).Some? {
      var (reserved, reservation) := Reserve(gated, Estimate(call)).value;
      SameAgentsKnown(b, reserved);
      PerformStepsLedger(reserved, call, reservation, fault);
    }
  }

  lemma StepStepsLedger(b: Books, op: Op)
    requires AgentsKnown(b)
    ensures AgentsKnown(Step(b, op)) && LedgerStep(b.ledger, Step(b, op).ledger)
  {
    if op.RunTool? {
      hide Run, AgentsKnown, LedgerStep;
      RunStepsLedger(b, op.call, op.now, op.prune, op.fault);
    } else {
      AdministrationKeepsAgents(b, op);
    }
  }

  lemma AdministrationKeepsAgents(b: Books, op: Op)
    requires AgentsKnown(b) && !op.RunTool?
    ensures AgentsKnown(Step(b, op)) && Step(b, op).ledger == b.ledger
  {
    hide RebuiltSpend, HasPlatform, TierIsFull;
  }

  // ---- The invariant ----------------------------------------------------------------------------

  /** The deltas of an agent's rows that one operation turned from confirmed to rejected. */
  ghost function NewlyReversed(ledger: seq<LedgerRow>, ledger': seq<LedgerRow>, agent: Id): int
    requires |ledger| <= |ledger'|
  {
    if ledger == [] then 0
    else
      var n := |ledger| - 1;
      NewlyReversed(ledger[..n], ledger', agent)
      + if ledger[n].agent == agent && ledger[n].status == Confirmed && ledger'[n].status == Reversed
        then ledger[n].delta else 0
  }

  /** The position of an agent's latest row. */
  ghost function Latest(ledger: seq<LedgerRow>, agent: Id): (i: Option<nat>)
    ensures i.Some? ==> i.value < |ledger| && ledger[i.value].agent == agent
    ensures i.None? ==> forall k :: 0 <= k < |ledger| ==> ledger[k].agent != agent
    ensures i.Some? ==> forall k :: i.value < k < |ledger| ==> ledger[k].agent != agent
  {
    if ledger == [] then None
    else if ledger[|ledger| - 1].agent == agent then Some(|ledger| - 1)
    else Latest(ledger[..|ledger| - 1], agent)
  }

  /** The balance is the latest row's balance_after less what was rejected since. */
  ghost predicate Running(ledger: seq<LedgerRow>, agent: Id, since: int) {
    Latest(ledger, agent).Some? ==>
      Balance(ledger, agent) == ledger[Latest(ledger, agent).value].balanceAfter - since
  }

  lemma {:induction false} ReversalLowersBalance(ledger: seq<LedgerRow>, target: Id, whole: seq<LedgerRow>, agent: Id)
    requires ledger <= whole
    ensures Balance(Reverse(ledger, target), agent)
         == Balance(ledger, agent) - NewlyReversed(ledger, Reverse(whole, target), agent)
  {
    if ledger != [] {
      var n := |ledger| - 1;
      assert Reverse(ledger, target)[..n] == Reverse(ledger[..n], target);
      ReversalLowersBalance(ledger[..n], target, whole, agent);
    }
  }

  lemma {:induction false} NothingNewlyReversed(ledger: seq<LedgerRow>, ledger': seq<LedgerRow>, agent: Id)
    requires ledger <= ledger'
    ensures NewlyReversed(ledger, ledger', agent) == 0
  {
    if ledger != [] {
      NothingNewlyReversed(ledger[..|ledger| - 1], ledger', agent);
    }
  }

  lemma LedgerStepRuns(ledger: seq<LedgerRow>, ledger': seq<LedgerRow>, agent: Id, since: int)
    requires LedgerStep(ledger, ledger') && Running(ledger, agent, since)
    ensures |ledger| <= |ledger'| && Running(ledger', agent, SinceAfter(ledger, ledger', agent, since))
  {
    if Appended(ledger, ledger') {
      NothingNewlyReversed(ledger, ledger', agent);
      assert ledger' == ledger + [ledger'[|ledger|]];
    } else if ledger' == ledger {
      NothingNewlyReversed(ledger, ledger', agent);
    } else {
      var target :| ledger' == Reverse(ledger, target);
      ReversalLowersBalance(ledger, target, ledger, agent);
      LatestSurvives(ledger, target, agent);
    }
  }

  lemma LatestSurvives(ledger: seq<LedgerRow>, target: Id, agent: Id)
    ensures Latest(Reverse(ledger, target), agent) == Latest(ledger, agent)
  {
    var ledger' := Reverse(ledger, target);
    assert forall k :: 0 <= k < |ledger| ==> ledger'[k].agent == ledger[k].agent;
    if Latest(ledger, agent).Some? && Latest(ledger', agent).Some? {
      var i, j := Latest(ledger, agent).value, Latest(ledger', agent).value;
      assert ledger'[i].agent == agent && ledger[j].agent == agent;
    }
  }

  ghost function SinceAfter(ledger: seq<LedgerRow>, ledger': seq<LedgerRow>, agent: Id, since: int): int
    requires |ledger| <= |ledger'|
  {
    if |ledger'| > |ledger| && ledger'[|ledger'| - 1].agent == agent then 0
    else since + NewlyReversed(ledger, ledger', agent)
  }

  /** The deltas of an agent's rows rejected since its latest row was inserted. */
  ghost function ReversedSince(b: Books, ops: seq<Op>, agent: Id): int {
    if ops == [] then 0
    else
      var n := |ops| - 1;
      var ledger, ledger' := Replay(b, ops[..n]).ledger, Replay(b, ops).ledger;
      if |ledger| <= |ledger'| then SinceAfter(ledger, ledger', agent, ReversedSince(b, ops[..n], agent)) else 0
  }

  /** Main result: in every history of a new covenant, across awards, entry fees and rejections, an agent's balance is
    * the balance_after of its latest row minus the deltas rejected since that row was inserted. */
  lemma {:induction false} RunningBalanceHolds(b: Books, ops: seq<Op>, agent: Id)
    requires AgentsKnown(b) && b.ledger == []
    ensures AgentsKnown(Replay(b, ops))
    ensures Running(Replay(b, ops).ledger, agent, ReversedSince(b, ops, agent))
  {
    hide Step, AgentsKnown, Running, LedgerStep, SinceAfter;
    if ops != [] {
      var n := |ops| - 1;
      RunningBalanceHolds(b, ops[..n], agent);
      StepStepsLedger(Replay(b, ops[..n]), ops[n]);
      LedgerStepRuns(Replay(b, ops[..n]).ledger, Replay(b, ops).ledger, agent, ReversedSince(b, ops[..n], agent));
    } else {
      EmptyRuns(agent);
    }
  }

  lemma EmptyRuns(agent: Id)
    ensures Running([], agent, 0)
  {
  }
}
